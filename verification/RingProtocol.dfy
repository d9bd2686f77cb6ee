/**
 One producer and one consumer on a RingBuffer, interleaved at every atomic access. The counters are
 taken as far from wrapping, and a full ring is recognised as in RingBuffers.Full.

 The last four fields of Sys are history: what was committed, which frames were read with which
 values, and which frames the producer's drops skipped.
*/
module RingProtocol {
  import opened RingBuffers

  datatype Producer =
    | Quiet
    | Loaded(t: nat)            // acquireWrite has read tail
    | Dropped                   // tail advanced, dropCount not yet
    | Filling(drop: bool)       // holds the slot; drop: this write dropped a frame
    | Filled(drop: bool)

  datatype Consumer<V> =
    | Waiting
    | GotTail(t: nat)           // acquireRead has read tail
    | Reading(t: nat)           // and found it below head
    | Took(t: nat, v: V)

  datatype Sys<V> = Sys(
    cap: nat, policy: Policy,
    head: nat, tail: nat, dropCount: nat, slots: seq<V>,
    p: Producer, c: Consumer<V>,
    committed: seq<V>, taken: seq<nat>, got: seq<V>, lost: set<nat>)
  {
    predicate Shape() {
      cap > 0 && |slots| == cap
    }

    /** A drop whose frame has not been committed yet. */
    function Pending(): nat {
      if p == Dropped || p == Filling(true) || p == Filled(true) then 1 else 0
    }

    /** The consumer is between acquireRead and commitRead. */
    function Holding(): nat {
      if c.Reading? || c.Took? then 1 else 0
    }
  }

  datatype Step<V> = LoadTail | Decide | CountDrop | Fill(x: V) | CommitWrite | ReadTail | ReadHead | Take | CommitRead {
    predicate Producer() {
      LoadTail? || Decide? || CountDrop? || Fill? || CommitWrite?
    }
  }

  function Init<V>(policy: Policy, slots: seq<V>): Sys<V> {
    Sys(|slots|, policy, 0, 0, 0, slots, Quiet, Waiting, [], [], [], {})
  }

  predicate Enabled<V>(s: Sys<V>, a: Step<V>) {
    match a
    case LoadTail => s.p.Quiet?
    case Decide => s.p.Loaded?
    case CountDrop => s.p.Dropped?
    case Fill(_) => s.p.Filling?
    case CommitWrite => s.p.Filled?
    case ReadTail => s.c.Waiting?
    case ReadHead => s.c.GotTail?
    case Take => s.c.Reading?
    case CommitRead => s.c.Took?
  }

  function Next<V>(s: Sys<V>, a: Step<V>): Sys<V>
    requires s.Shape() && Enabled(s, a)
  {
    match a
    case LoadTail => s.(p := Loaded(s.tail))
    case Decide =>
      if !Full(s.head, s.p.t, s.cap) then s.(p := Filling(false))
      else if s.policy == DropNewest then s.(p := Quiet, dropCount := s.dropCount + 1)
      else s.(p := Dropped, tail := s.tail + 1, lost := s.lost + {s.tail})
    case CountDrop => s.(p := Filling(true), dropCount := s.dropCount + 1)
    case Fill(x) => s.(p := Filled(s.p.drop), slots := s.slots[Slot(s.head, s.cap) := x])
    case CommitWrite => s.(p := Quiet, head := s.head + 1, committed := s.committed + [s.slots[Slot(s.head, s.cap)]])
    case ReadTail => s.(c := GotTail(s.tail))
    case ReadHead => s.(c := if s.c.t >= s.head then Waiting else Reading(s.c.t))
    case Take => s.(c := Took(s.c.t, s.slots[Slot(s.c.t, s.cap)]))
    case CommitRead => s.(c := Waiting, tail := s.tail + 1, taken := s.taken + [s.c.t], got := s.got + [s.c.v])
  }

  ghost predicate IsRun<V>(s: Sys<V>, run: seq<Step<V>>)
    requires s.Shape()
    decreases |run|
  {
    run == [] || (Enabled(s, run[0]) && IsRun(Next(s, run[0]), run[1..]))
  }

  ghost function End<V>(s: Sys<V>, run: seq<Step<V>>): Sys<V>
    requires s.Shape() && IsRun(s, run)
    decreases |run|
  {
    if run == [] then s else End(Next(s, run[0]), run[1..])
  }

  // ---------------------------------------------------------------- counters, in every interleaving

  /** What the producer knows about the room left. */
  predicate RoomKnown<V>(s: Sys<V>) {
    match s.p
    case Quiet => true
    case Loaded(t) => t <= s.tail && s.head - t <= s.cap
    case Dropped => s.head - s.tail < s.cap
    case Filling(_) => s.head - s.tail < s.cap
    case Filled(_) => s.head - s.tail < s.cap
  }

  /** Holds in every interleaving under both policies. */
  predicate Counted<V>(s: Sys<V>) {
    && s.Shape() && RoomKnown(s)
    && s.head - s.tail <= s.cap
    && |s.committed| == s.head
    && |s.got| == |s.taken|
    && (s.policy == DropNewest ==> s.Pending() == 0)
    && s.tail == |s.taken| + (if s.policy == DropNewest then 0 else s.dropCount + if s.p == Dropped then 1 else 0)
    && (s.c.GotTail? || s.c.Reading? || s.c.Took? ==> s.c.t <= s.tail)
  }

  lemma StepKeepsCounted<V>(s: Sys<V>, a: Step<V>)
    requires Counted(s) && Enabled(s, a)
    ensures Counted(Next(s, a))
  {
    hide Slot;
  }

  /** head - tail <= capacity and tail = reads + drops up to the counter update in flight, whatever the interleaving. */
  lemma {:induction false} RunKeepsCounted<V>(s: Sys<V>, run: seq<Step<V>>)
    requires Counted(s) && IsRun(s, run)
    ensures Counted(End(s, run))
    decreases |run|
  {
    if run != [] {
      StepKeepsCounted(s, run[0]);
      hide Counted, Next, Enabled;
      RunKeepsCounted(Next(s, run[0]), run[1..]);
    }
  }

  // ---------------------------------------------------------------- delivery in order

  /**
   The schedules in which every frame is accounted for: under drop-newest all of them, under
   drop-oldest those where the producer does not run during a consumer's acquire-read-commit turn.
  */
  predicate Calm<V>(s: Sys<V>, a: Step<V>) {
    s.policy == DropNewest || (a.Producer() ==> s.c.Waiting?)
  }

  ghost predicate CalmRun<V>(s: Sys<V>, run: seq<Step<V>>)
    requires s.Shape() && IsRun(s, run)
    decreases |run|
  {
    run == [] || (Calm(s, run[0]) && CalmRun(Next(s, run[0]), run[1..]))
  }

  /** Unread frames are intact in their slots. */
  ghost predicate Stored<V>(s: Sys<V>)
    requires Counted(s)
  {
    forall i: nat :: s.tail <= i < s.head ==> s.slots[Slot(i, s.cap)] == s.committed[i]
  }

  /** The reader is on the oldest unread frame; what it took is that frame. */
  ghost predicate ReaderAtTail<V>(s: Sys<V>)
    requires Counted(s)
  {
    match s.c
    case Waiting => true
    case GotTail(t) => t == s.tail
    case Reading(t) => t == s.tail < s.head
    case Took(t, v) => t == s.tail < s.head && v == s.committed[t]
  }

  /** Each frame below tail was read or dropped, not both. */
  ghost predicate Accounted<V>(s: Sys<V>)
    requires Counted(s)
  {
    && (forall j, k :: 0 <= j < k < |s.taken| ==> s.taken[j] < s.taken[k])
    && (forall j :: 0 <= j < |s.taken| ==> s.taken[j] < s.tail && s.taken[j] !in s.lost)
    && (forall i: nat :: i < s.tail ==> i in s.taken || i in s.lost)
    && (forall i :: i in s.lost ==> i < s.tail)
    && |s.lost| == s.tail - |s.taken|
  }

  /** What was delivered, in order, are the values of the frames read. */
  ghost predicate Delivered<V>(s: Sys<V>)
    requires Counted(s)
  {
    forall j :: 0 <= j < |s.got| ==> s.taken[j] < s.head && s.got[j] == s.committed[s.taken[j]]
  }

  ghost predicate Fifo<V>(s: Sys<V>) {
    && Counted(s) && s.tail <= s.head + s.Pending()
    && Stored(s) && ReaderAtTail(s) && Accounted(s) && Delivered(s)
  }

  /** The slot being written is never the slot being read. */
  lemma WriterAvoidsReader<V>(s: Sys<V>)
    requires Fifo(s) && s.p.Filling? && (s.c.Reading? || s.c.Took?)
    ensures Slot(s.head, s.cap) != Slot(s.c.t, s.cap)
  {
    SlotsDiffer(s.c.t, s.head, s.cap);
  }

  lemma FillKeepsStored<V>(s: Sys<V>, x: V)
    requires Counted(s) && Stored(s) && s.p.Filling?
    ensures Stored(Next(s, Fill(x)))
  {
    StepKeepsCounted(s, Fill(x));
    hide Slot;
    forall i: nat | s.tail <= i < s.head
      ensures Slot(i, s.cap) != Slot(s.head, s.cap)
    {
      SlotsDiffer(i, s.head, s.cap);
    }
  }

  lemma StepKeepsStored<V>(s: Sys<V>, a: Step<V>)
    requires Counted(s) && Stored(s) && Enabled(s, a)
    ensures Counted(Next(s, a)) && Stored(Next(s, a))
  {
    StepKeepsCounted(s, a);
    if a.Fill? { FillKeepsStored(s, a.x); }
    hide Slot;
  }

  lemma StepKeepsReader<V>(s: Sys<V>, a: Step<V>)
    requires Fifo(s) && Enabled(s, a) && Calm(s, a)
    ensures Counted(Next(s, a)) && ReaderAtTail(Next(s, a)) && Next(s, a).tail <= Next(s, a).head + Next(s, a).Pending()
  {
    StepKeepsCounted(s, a);
    hide Slot;
  }

  lemma CommitReadKeepsAccounted<V>(s: Sys<V>)
    requires Fifo(s) && Enabled(s, CommitRead)
    ensures Counted(Next(s, CommitRead)) && Accounted(Next(s, CommitRead)) && Delivered(Next(s, CommitRead))
  {
    StepKeepsCounted(s, CommitRead);
    hide Slot;
    var n: Sys<V> := Next(s, CommitRead);
    assert n.taken[|s.taken|] == s.tail;
    forall i: nat | i < n.tail
      ensures i in n.taken || i in n.lost
    {
      if i in s.taken {
        var j :| 0 <= j < |s.taken| && s.taken[j] == i;
        assert n.taken[j] == i;
      }
    }
  }

  lemma StepKeepsAccounted<V>(s: Sys<V>, a: Step<V>)
    requires Fifo(s) && Enabled(s, a) && Calm(s, a)
    ensures Counted(Next(s, a)) && Accounted(Next(s, a)) && Delivered(Next(s, a))
  {
    if a.CommitRead? {
      CommitReadKeepsAccounted(s);
    } else {
      StepKeepsCounted(s, a);
      hide Slot, Full;
      assert Next(s, a).taken == s.taken;
    }
  }

  lemma {:induction false} RunKeepsFifo<V>(s: Sys<V>, run: seq<Step<V>>)
    requires Fifo(s) && IsRun(s, run) && CalmRun(s, run)
    ensures Fifo(End(s, run))
    decreases |run|
  {
    if run != [] {
      StepKeepsStored(s, run[0]);
      StepKeepsReader(s, run[0]);
      StepKeepsAccounted(s, run[0]);
      hide Counted, Stored, ReaderAtTail, Accounted, Delivered, Next, Enabled, Calm;
      RunKeepsFifo(Next(s, run[0]), run[1..]);
    }
  }

  lemma InitFifo<V>(policy: Policy, slots: seq<V>)
    requires slots != []
    ensures Fifo(Init(policy, slots))
  {
  }

  lemma {:induction false} PolicyIsFixed<V>(s: Sys<V>, run: seq<Step<V>>)
    requires s.Shape() && IsRun(s, run)
    ensures End(s, run).policy == s.policy && End(s, run).cap == s.cap && End(s, run).Shape()
    decreases |run|
  {
    if run != [] {
      hide Slot, Full;
      PolicyIsFixed(Next(s, run[0]), run[1..]);
    }
  }

  lemma {:induction false} NewestIsCalm<V>(s: Sys<V>, run: seq<Step<V>>)
    requires s.Shape() && IsRun(s, run) && s.policy == DropNewest
    ensures CalmRun(s, run)
    decreases |run|
  {
    if run != [] {
      hide Slot, Full;
      NewestIsCalm(Next(s, run[0]), run[1..]);
    }
  }

  /** Along every drop-newest run, and every calm drop-oldest one, the two slots differ. */
  lemma RunWriterAvoidsReader<V>(policy: Policy, slots: seq<V>, run: seq<Step<V>>)
    requires slots != [] && IsRun(Init(policy, slots), run)
    requires policy == DropNewest || CalmRun(Init(policy, slots), run)
    ensures var e := End(Init(policy, slots), run);
            e.p.Filling? && (e.c.Reading? || e.c.Took?) ==> e.cap > 0 && Slot(e.head, e.cap) != Slot(e.c.t, e.cap)
  {
    var s := Init(policy, slots);
    InitFifo(policy, slots);
    if policy == DropNewest { NewestIsCalm(s, run); }
    RunKeepsFifo(s, run);
    var e: Sys<V> := End(s, run);
    hide IsRun, End, CalmRun;
    if e.p.Filling? && (e.c.Reading? || e.c.Took?) { WriterAvoidsReader(e); }
  }

  /** n distinct numbers below n in increasing order are 0, 1, 2, ... */
  lemma {:induction false} IncreasingFromBelow(taken: seq<nat>, j: nat)
    requires forall i, k :: 0 <= i < k < |taken| ==> taken[i] < taken[k]
    requires j < |taken|
    ensures j <= taken[j]
  {
    if j > 0 { IncreasingFromBelow(taken, j - 1); }
  }

  lemma {:induction false} IncreasingFromAbove(taken: seq<nat>, j: nat)
    requires forall i, k :: 0 <= i < k < |taken| ==> taken[i] < taken[k]
    requires forall i :: 0 <= i < |taken| ==> taken[i] < |taken|
    requires j < |taken|
    ensures taken[j] <= j
    decreases |taken| - j
  {
    if j + 1 < |taken| { IncreasingFromAbove(taken, j + 1); }
  }

  /** Drop-newest: whatever the interleaving, a prefix of the committed frames is delivered, in order. */
  lemma NewestDeliversPrefix<V>(slots: seq<V>, run: seq<Step<V>>)
    requires slots != [] && IsRun(Init(DropNewest, slots), run)
    ensures End(Init(DropNewest, slots), run).got <= End(Init(DropNewest, slots), run).committed
  {
    var s := Init(DropNewest, slots);
    InitFifo(DropNewest, slots);
    NewestIsCalm(s, run);
    PolicyIsFixed(s, run);
    RunKeepsFifo(s, run);
    var e: Sys<V> := End(s, run);
    hide IsRun, End, CalmRun, Stored, Slot;
    forall j | 0 <= j < |e.got|
      ensures j < |e.committed| && e.got[j] == e.committed[j]
    {
      IncreasingFromBelow(e.taken, j);
      IncreasingFromAbove(e.taken, j);
    }
  }

  /**
   Drop-oldest with the consumer's turns undisturbed: the frames delivered are, in order, exactly
   those below tail that no drop skipped.
  */
  lemma OldestDeliversUndropped<V>(slots: seq<V>, run: seq<Step<V>>)
    requires slots != [] && IsRun(Init(DropOldest, slots), run) && CalmRun(Init(DropOldest, slots), run)
    ensures var e := End(Init(DropOldest, slots), run);
            && Counted(e) && Accounted(e) && Delivered(e)
            && |e.got| == |e.taken| && |e.lost| == e.dropCount + if e.p == Dropped then 1 else 0
  {
    InitFifo(DropOldest, slots);
    RunKeepsFifo(Init(DropOldest, slots), run);
    PolicyIsFixed(Init(DropOldest, slots), run);
  }

  // ---------------------------------------------------------------- drop-oldest, fully concurrent

  /** The bookkeeping bound one would expect of a concurrent consumer. */
  predicate Claim<V>(s: Sys<V>) {
    s.tail + s.Holding() <= s.head + s.Pending()
  }

  /** acquireRead finds its old tail below head although the drops since then have used up every frame. */
  predicate StaleAcquire<V>(s: Sys<V>, a: Step<V>) {
    a.ReadHead? && s.c.GotTail? && s.c.t < s.head && s.tail == s.head + s.Pending()
  }

  /** One step breaks the bound exactly when it is a stale acquire. */
  lemma StepKeepsClaimIff<V>(s: Sys<V>, a: Step<V>)
    requires Counted(s) && Claim(s) && Enabled(s, a)
    ensures Claim(Next(s, a)) <==> !StaleAcquire(s, a)
  {
    hide Slot;
  }

  ghost predicate ClaimThroughout<V>(s: Sys<V>, run: seq<Step<V>>)
    requires s.Shape() && IsRun(s, run)
    decreases |run|
  {
    Claim(s) && (run == [] || ClaimThroughout(Next(s, run[0]), run[1..]))
  }

  ghost predicate NeverStale<V>(s: Sys<V>, run: seq<Step<V>>)
    requires s.Shape() && IsRun(s, run)
    decreases |run|
  {
    run == [] || (!StaleAcquire(s, run[0]) && NeverStale(Next(s, run[0]), run[1..]))
  }

  /** The bound holds all along a run exactly when no acquire in it is stale. */
  lemma {:induction false} ClaimHoldsIff<V>(s: Sys<V>, run: seq<Step<V>>)
    requires Counted(s) && Claim(s) && IsRun(s, run)
    ensures ClaimThroughout(s, run) <==> NeverStale(s, run)
    decreases |run|
  {
    if run != [] {
      StepKeepsCounted(s, run[0]);
      StepKeepsClaimIff(s, run[0]);
      hide Counted, Next, Enabled, StaleAcquire, Claim;
      if Claim(Next(s, run[0])) {
        ClaimHoldsIff(Next(s, run[0]), run[1..]);
      }
    }
  }

  /** Drop-newest keeps the bound in every interleaving. */
  lemma {:induction false} NewestNeverStale<V>(s: Sys<V>, run: seq<Step<V>>)
    requires Fifo(s) && IsRun(s, run) && s.policy == DropNewest
    ensures NeverStale(s, run)
    decreases |run|
  {
    if run != [] {
      StepKeepsStored(s, run[0]);
      StepKeepsReader(s, run[0]);
      StepKeepsAccounted(s, run[0]);
      hide Stored, Accounted, Delivered, Slot, Full;
      NewestNeverStale(Next(s, run[0]), run[1..]);
    }
  }

  /** acquireRead's two loads with nothing in between. */
  predicate AtomicAcquires<V>(run: seq<Step<V>>) {
    forall i :: 0 <= i < |run| && run[i].ReadTail? ==> i + 1 < |run| && run[i + 1].ReadHead?
  }

  /** So does drop-oldest if acquireRead were atomic. */
  lemma {:induction false} AtomicAcquireNeverStale<V>(s: Sys<V>, run: seq<Step<V>>)
    requires s.Shape() && IsRun(s, run) && AtomicAcquires(run)
    requires s.c.GotTail? ==> run != [] && run[0].ReadHead? && s.c.t == s.tail
    ensures NeverStale(s, run)
    decreases |run|
  {
    if run != [] {
      var n := Next(s, run[0]);
      assert n.c.GotTail? ==> run[0].ReadTail? && run[1..][0].ReadHead?;
      forall i | 0 <= i < |run[1..]| && run[1..][i].ReadTail?
        ensures i + 1 < |run[1..]| && run[1..][i + 1].ReadHead?
      {
        assert run[1..][i] == run[i + 1] && run[i + 2].ReadHead?;
      }
      hide Slot, Full;
      AtomicAcquireNeverStale(n, run[1..]);
    }
  }

  // ---------------------------------------------------------------- and what a stale acquire leads to

  /** Tail has passed head, and no write in progress will make up for it. */
  predicate Overrun<V>(s: Sys<V>) {
    && s.Shape() && s.policy == DropOldest && s.tail > s.head + s.Pending()
    && (s.p.Loaded? ==> s.p.t > s.head)
    && (s.p.Filling? || s.p.Filled? ==> s.p.drop)
  }

  lemma StepKeepsOverrun<V>(s: Sys<V>, a: Step<V>)
    requires Overrun(s) && Enabled(s, a)
    ensures Overrun(Next(s, a))
    ensures a.Decide? ==> Next(s, a).tail == s.tail + 1 && Next(s, a).p == Dropped
  {
    hide Slot;
  }

  /**
   An overrun ring never recovers: every further write drops, and a consumer whose acquires are not
   split by the producer is told "empty" for ever.
  */
  lemma {:induction false} OverrunStarves<V>(s: Sys<V>, run: seq<Step<V>>)
    requires Overrun(s) && IsRun(s, run) && AtomicAcquires(run) && !s.c.Reading? && !s.c.Took?
    requires s.c.GotTail? ==> run != [] && run[0].ReadHead? && s.c.t == s.tail
    ensures Overrun(End(s, run)) && End(s, run).got == s.got
    decreases |run|
  {
    if run != [] {
      var n := Next(s, run[0]);
      StepKeepsOverrun(s, run[0]);
      assert n.c.GotTail? ==> run[0].ReadTail? && run[1..][0].ReadHead?;
      forall i | 0 <= i < |run[1..]| && run[1..][i].ReadTail?
        ensures i + 1 < |run[1..]| && run[1..][i + 1].ReadHead?
      {
        assert run[1..][i] == run[i + 1] && run[i + 2].ReadHead?;
      }
      hide Slot, Full;
      OverrunStarves(n, run[1..]);
    }
  }

  // ---- which happens, for every capacity

  lemma {:induction false} RunsCompose<V>(s: Sys<V>, a: seq<Step<V>>, b: seq<Step<V>>)
    requires s.Shape() && IsRun(s, a) && End(s, a).Shape() && IsRun(End(s, a), b)
    ensures IsRun(s, a + b) && End(s, a + b) == End(End(s, a), b)
    decreases |a|
  {
    if a == [] {
      assert a + b == b;
    } else {
      hide Next, Enabled;
      assert (a + b)[0] == a[0] && (a + b)[1..] == a[1..] + b;
      RunsCompose(Next(s, a[0]), a[1..], b);
    }
  }

  lemma RunOfOne<V>(s: Sys<V>, a: Step<V>)
    requires s.Shape() && Enabled(s, a)
    ensures IsRun(s, [a]) && End(s, [a]) == Next(s, a) && Next(s, a).Shape()
  {
    assert [a][1..] == [];
  }

  /** One more step at the end of a run. */
  lemma Then<V>(s: Sys<V>, run: seq<Step<V>>, e: Sys<V>, a: Step<V>) returns (more: seq<Step<V>>, n: Sys<V>)
    requires s.Shape() && IsRun(s, run) && End(s, run) == e && e.Shape() && Enabled(e, a)
    ensures IsRun(s, more) && End(s, more) == n == Next(e, a) && n.Shape()
  {
    hide IsRun, End;
    RunOfOne(e, a);
    RunsCompose(s, run, [a]);
    more, n := run + [a], Next(e, a);
  }

  /** Between calls on both sides. */
  predicate AtRest<V>(s: Sys<V>) {
    Counted(s) && s.p.Quiet? && s.c.Waiting?
  }

  /** k frames written and committed. */
  lemma {:induction false} Fills<V>(s: Sys<V>, run: seq<Step<V>>, e: Sys<V>, k: nat, x: V)
    returns (more: seq<Step<V>>, n: Sys<V>)
    requires s.Shape() && IsRun(s, run) && End(s, run) == e
    requires AtRest(e) && 0 <= e.head - e.tail && e.head - e.tail + k <= e.cap
    ensures n.Shape() && IsRun(s, more) && End(s, more) == n
    ensures AtRest(n) && n.policy == e.policy && n.cap == e.cap && n.tail == e.tail && n.head == e.head + k
    decreases k
  {
    hide IsRun, End, Slot;
    more, n := run, e;
    if k > 0 {
      more, n := Then(s, more, n, LoadTail);
      more, n := Then(s, more, n, Decide);
      more, n := Then(s, more, n, Fill(x));
      more, n := Then(s, more, n, CommitWrite);
      more, n := Fills(s, more, n, k - 1, x);
    }
  }

  /** k frames read, with the producer holding an earlier value of tail. */
  lemma {:induction false} Drains<V>(s: Sys<V>, run: seq<Step<V>>, e: Sys<V>, k: nat)
    returns (more: seq<Step<V>>, n: Sys<V>)
    requires s.Shape() && IsRun(s, run) && End(s, run) == e
    requires Counted(e) && e.p.Loaded? && e.c.Waiting? && e.tail + k <= e.head
    ensures n.Shape() && IsRun(s, more) && End(s, more) == n
    ensures Counted(n) && n.p == e.p && n.c.Waiting? && n.policy == e.policy && n.cap == e.cap
    ensures n.head == e.head && n.tail == e.tail + k
    decreases k
  {
    hide IsRun, End, Slot;
    more, n := run, e;
    if k > 0 {
      more, n := Then(s, more, n, ReadTail);
      more, n := Then(s, more, n, ReadHead);
      more, n := Then(s, more, n, Take);
      more, n := Then(s, more, n, CommitRead);
      more, n := Drains(s, more, n, k - 1);
    }
  }

  /**
   For every capacity: the producer sees a full ring, the consumer empties it and reads tail, the
   producer drops and commits on the strength of its old tail, and the consumer's acquire completes.
  */
  lemma OverrunIsReachable<V>(slots: seq<V>, x: V) returns (run: seq<Step<V>>)
    requires slots != []
    ensures var s := Init(DropOldest, slots);
            IsRun(s, run) && Overrun(End(s, run)) && AtRest(End(s, run))
  {
    hide IsRun, End, Slot;
    var s, n := Init(DropOldest, slots), Init(DropOldest, slots);
    run := [];
    Starts(s);
    run, n := Fills(s, run, n, |slots|, x);
    run, n := Then(s, run, n, LoadTail);
    run, n := Drains(s, run, n, |slots|);
    run, n := Then(s, run, n, ReadTail);
    run, n := StaleTurn(s, run, n, x);
  }

  lemma Starts<V>(s: Sys<V>)
    requires s.Shape()
    ensures IsRun(s, []) && End(s, []) == s
  {
  }

  lemma StaleTurn<V>(s: Sys<V>, run: seq<Step<V>>, e: Sys<V>, x: V) returns (more: seq<Step<V>>, n: Sys<V>)
    requires s.Shape() && IsRun(s, run) && End(s, run) == e && Counted(e) && e.policy == DropOldest
    requires e.p.Loaded? && e.p.t == e.head - e.cap && e.tail == e.head && e.c == GotTail(e.tail)
    ensures n.Shape() && IsRun(s, more) && End(s, more) == n && Overrun(n) && AtRest(n)
  {
    hide IsRun, End, Slot;
    more, n := Then(s, run, e, Decide);
    more, n := Then(s, more, n, CountDrop);
    more, n := Then(s, more, n, Fill(x));
    more, n := Then(s, more, n, CommitWrite);
    assert StaleAcquire(n, ReadHead);
    more, n := Then(s, more, n, ReadHead);
    more, n := Then(s, more, n, Take);
    more, n := Then(s, more, n, CommitRead);
  }
}
