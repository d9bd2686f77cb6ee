/**
 Every interleaving of one swapper (the OTA thread) and any number of inference threads running
 the methods of ModelManager. A thread's program counter says what it is about to do next.
*/
module ModelSwapProtocol {
  import opened ModelBooks

  datatype Holder = Free | Swapper | Reader(t: nat)

  datatype SwapPc =
    | SwapIdle
    | StageWait(region: Region)     // mapped, waiting for the lock
    | StageHeld(region: Region)
    | StageVerify                   // staged, about to verify the signature
    | ActivateWait(handle: Handle)
    | ActivateHeld(handle: Handle)
    | RollbackWait
    | RollbackHeld
    | SwapTry                       // about to load inFlight in tryUnmapRetired
    | SwapUnmapping(i: nat)         // loaded 0, about to unmap retired[i]
    | SwapUnlock

  datatype ReadPc =
    | ReadIdle
    | InBracket(held: set<nat>)     // held: addresses obtained from current() since beginInference
    | CurrentWait(held: set<nat>)
    | CurrentHeld(held: set<nat>)
    | CurrentUnlock(held: set<nat>)
    | EndWait                       // its fetch_sub returned 1, waiting for the lock
    | EndTry
    | EndUnmapping(i: nat)
    | EndUnlock

  datatype Sys = Sys(books: Books, inFlight: int, lock: Holder, swap: SwapPc, readers: map<nat, ReadPc>)

  datatype Action =
    | Map(region: Region)           // stage(): mapReadOnly succeeded
    | CallActivate(handle: Handle)
    | CallRollback
    | SwapAdvance(verified: bool)   // the swapper's next step
    | Begin(t: nat)
    | CallCurrent(t: nat)
    | End(t: nat)
    | ReadAdvance(t: nat)

  function Init(threads: set<nat>): Sys {
    Sys(Books(EMPTY, {}, multiset{}, multiset{}), 0, Free, SwapIdle, map t | t in threads :: ReadIdle)
  }

  predicate Enabled(s: Sys, a: Action) {
    match a
    case Map(r) => s.swap == SwapIdle && r.data != 0 && r.data !in s.books.mapped
    case CallActivate(h) => s.swap == SwapIdle && h.Valid()
    case CallRollback => s.swap == SwapIdle
    case SwapAdvance(_) => s.swap != SwapIdle && (s.swap.StageWait? || s.swap.ActivateWait? || s.swap.RollbackWait? ==> s.lock == Free)
    case Begin(t) => t in s.readers && s.readers[t] == ReadIdle
    case CallCurrent(t) => t in s.readers && s.readers[t].InBracket?
    case End(t) => t in s.readers && s.readers[t].InBracket?
    case ReadAdvance(t) =>
      && t in s.readers && s.readers[t] != ReadIdle && !s.readers[t].InBracket?
      && (s.readers[t].CurrentWait? || s.readers[t].EndWait? ==> s.lock == Free)
  }

  // ---- the steps

  function SwapNext(s: Sys, verified: bool): Sys
    requires s.swap != SwapIdle
  {
    var b := s.books;
    match s.swap
    case StageWait(r) => s.(lock := Swapper, swap := StageHeld(r))
    case StageHeld(r) => s.(books := Staged(b, r), swap := StageVerify)
    case StageVerify => s.(books := if verified then b else Staged(b, NO_REGION), swap := SwapUnlock)
    case ActivateWait(h) => s.(lock := Swapper, swap := ActivateHeld(h))
    case ActivateHeld(h) =>
      if h.data != b.core.stagedRegion.data then s.(swap := SwapUnlock)
      else s.(books := b.(core := Shifted(b.core, h)), swap := SwapTry)
    case RollbackWait => s.(lock := Swapper, swap := RollbackHeld)
    case RollbackHeld =>
      if !b.core.previous.Valid() then s.(swap := SwapUnlock)
      else s.(books := b.(core := Reverted(b.core)), swap := SwapTry)
    case SwapTry => s.(swap := if s.inFlight != 0 then SwapUnlock else SwapUnmapping(0))
    case SwapUnmapping(i) => s.(books := Drained(b, i), swap := if i < |b.core.retired| then SwapUnmapping(i + 1) else SwapUnlock)
    case SwapUnlock => s.(lock := Free, swap := SwapIdle)
  }

  function At(s: Sys, t: nat, pc: ReadPc): Sys {
    s.(readers := s.readers[t := pc])
  }

  function ReadNext(s: Sys, t: nat): Sys
    requires t in s.readers
  {
    var b := s.books;
    match s.readers[t]
    case ReadIdle => s
    case InBracket(_) => s
    case CurrentWait(held) => At(s, t, CurrentHeld(held)).(lock := Reader(t))
    case CurrentHeld(held) => At(s, t, CurrentUnlock(held + {b.core.active.data}))
    case CurrentUnlock(held) => At(s, t, InBracket(held)).(lock := Free)
    case EndWait => At(s, t, EndTry).(lock := Reader(t))
    case EndTry => At(s, t, if s.inFlight != 0 then EndUnlock else EndUnmapping(0))
    case EndUnmapping(i) => At(s, t, if i < |b.core.retired| then EndUnmapping(i + 1) else EndUnlock).(books := Drained(b, i))
    case EndUnlock => At(s, t, ReadIdle).(lock := Free)
  }

  function Apply(s: Sys, a: Action): Sys
    requires Enabled(s, a)
  {
    match a
    case Map(r) => s.(books := Map1(s.books, r.data), swap := StageWait(r))
    case CallActivate(h) => s.(swap := ActivateWait(h))
    case CallRollback => s.(swap := RollbackWait)
    case SwapAdvance(v) => SwapNext(s, v)
    case Begin(t) => At(s, t, InBracket({})).(inFlight := s.inFlight + 1)
    case CallCurrent(t) => At(s, t, CurrentWait(s.readers[t].held))
    case End(t) => At(s, t, if s.inFlight == 1 then EndWait else ReadIdle).(inFlight := s.inFlight - 1)
    case ReadAdvance(t) => ReadNext(s, t)
  }

  /** A run: every action is enabled when it is taken. */
  ghost predicate IsRun(s: Sys, run: seq<Action>)
    decreases |run|
  {
    run != [] ==> Enabled(s, run[0]) && IsRun(Apply(s, run[0]), run[1..])
  }

  ghost function Final(s: Sys, run: seq<Action>): Sys
    requires IsRun(s, run)
    decreases |run|
  {
    if run == [] then s else Final(Apply(s, run[0]), run[1..])
  }

  // ---------------------------------------------------------------- the invariant

  predicate SwapHolds(pc: SwapPc) {
    pc.StageHeld? || pc.StageVerify? || pc.ActivateHeld? || pc.RollbackHeld? || pc.SwapTry? || pc.SwapUnmapping? || pc.SwapUnlock?
  }

  predicate ReadHolds(pc: ReadPc) {
    pc.CurrentHeld? || pc.CurrentUnlock? || pc.EndTry? || pc.EndUnmapping? || pc.EndUnlock?
  }

  /** Inside a beginInference/endInference bracket. */
  predicate Pinning(pc: ReadPc) {
    pc.InBracket? || pc.CurrentWait? || pc.CurrentHeld? || pc.CurrentUnlock?
  }

  function Held(pc: ReadPc): set<nat> {
    if Pinning(pc) then pc.held else {}
  }

  function Pinners(readers: map<nat, ReadPc>): set<nat> {
    set t | t in readers && Pinning(readers[t])
  }

  predicate Draining(s: Sys) {
    || s.swap.SwapUnmapping?
    || (s.lock.Reader? && s.lock.t in s.readers && s.readers[s.lock.t].EndUnmapping?)
  }

  /** How many retired regions the lock holder has already unmapped. */
  function Progress(s: Sys): nat {
    if s.swap.SwapUnmapping? then s.swap.i
    else if Draining(s) then s.readers[s.lock.t].i
    else 0
  }

  /** A region the swapper has mapped but not yet stored. */
  function InHand(pc: SwapPc): multiset<nat> {
    if pc.StageWait? || pc.StageHeld? then Owner(pc.region) else multiset{}
  }

  predicate LockInv(s: Sys) {
    && (s.lock == Swapper <==> SwapHolds(s.swap))
    && (s.lock.Reader? ==> s.lock.t in s.readers)
    && (forall t :: t in s.readers ==> (s.lock == Reader(t) <==> ReadHolds(s.readers[t])))
  }

  predicate CountInv(s: Sys) {
    s.inFlight == |Pinners(s.readers)|
  }

  predicate OwnInv(s: Sys) {
    Balanced(s.books, Progress(s), InHand(s.swap))
  }

  /** An address a reader holds belongs to the active, the previous or a retired region. */
  predicate HeldInv(s: Sys) {
    && (forall t, a :: t in s.readers && a in Held(s.readers[t]) && a != 0 ==> Served(s.books.core, a))
    && (Draining(s) ==> forall t :: t in s.readers ==> Held(s.readers[t]) == {})
  }

  predicate Served(c: Core, a: nat) {
    a == c.active.data || a == c.previous.data || a in Data(c.retired)
  }

  predicate PendingRead(pc: ReadPc) {
    pc.EndWait? || pc.EndTry? || pc.EndUnmapping?
  }

  /** Some thread will still call tryUnmapRetired. */
  ghost predicate Pending(s: Sys) {
    || s.swap.SwapTry? || s.swap.SwapUnmapping?
    || exists t :: t in s.readers && PendingRead(s.readers[t])
  }

  ghost predicate PendInv(s: Sys) {
    s.inFlight == 0 && s.books.core.retired != [] ==> Pending(s)
  }

  ghost predicate Inv(s: Sys) {
    LockInv(s) && CountInv(s) && OwnInv(s) && HeldInv(s) && PendInv(s)
  }

  lemma InitInv(threads: set<nat>)
    ensures Inv(Init(threads))
  {
    assert Pinners(Init(threads).readers) == {};
    assert Data([]) == [];
  }

  // ---------------------------------------------------------------- preservation

  lemma PinnersUpdate(readers: map<nat, ReadPc>, t: nat, pc: ReadPc)
    requires t in readers
    ensures |Pinners(readers[t := pc])| == |Pinners(readers)|
              + (if Pinning(pc) then 1 else 0) - (if Pinning(readers[t]) then 1 else 0)
  {
    assert Pinners(readers[t := pc]) == if Pinning(pc) then Pinners(readers) + {t} else Pinners(readers) - {t};
    assert t in Pinners(readers) <==> Pinning(readers[t]);
  }

  lemma LockKept(s: Sys, x: Action)
    requires LockInv(s) && Enabled(s, x)
    ensures LockInv(Apply(s, x))
  {
    hide Staged, Drained, Shifted, Reverted;
  }

  lemma CountKept(s: Sys, x: Action)
    requires CountInv(s) && Enabled(s, x)
    ensures CountInv(Apply(s, x))
  {
    hide Staged, Drained, Shifted, Reverted;
    if x.Begin? || x.CallCurrent? || x.End? || x.ReadAdvance? {
      PinnersUpdate(s.readers, x.t, Apply(s, x).readers[x.t]);
    }
  }

  lemma OwnKeptBySwapper(s: Sys, v: bool)
    requires LockInv(s) && OwnInv(s) && Enabled(s, SwapAdvance(v))
    ensures OwnInv(SwapNext(s, v))
  {
    hide Balanced, Staged, Drained, Shifted, Reverted;
    assert !s.lock.Reader? && !SwapNext(s, v).lock.Reader?;
    hide LockInv, Owned, Data, Addresses;
    var b := s.books;
    assert Owner(NO_REGION) == multiset{};
    match s.swap {
      case StageHeld(r) => StageBalances(b, r); assert OwnInv(SwapNext(s, v));
      case StageVerify => if !v { StageBalances(b, NO_REGION); } assert OwnInv(SwapNext(s, v));
      case ActivateHeld(h) => if h.data == b.core.stagedRegion.data { ShiftBalances(b, h); } assert OwnInv(SwapNext(s, v));
      case RollbackHeld => RevertBalances(b); assert OwnInv(SwapNext(s, v));
      case SwapUnmapping(i) => DrainBalances(b, i, multiset{}); assert OwnInv(SwapNext(s, v));
      case SwapIdle =>
      case _ => assert OwnInv(SwapNext(s, v));
    }
  }

  lemma OwnKeptByOthers(s: Sys, x: Action)
    requires LockInv(s) && OwnInv(s) && Enabled(s, x) && !x.SwapAdvance?
    ensures OwnInv(Apply(s, x))
  {
    hide Balanced, Drained;
    var b := s.books;
    if x.Map? {
      hide LockInv;
      MapBalances(b, Progress(s), x.region);
    } else if x.ReadAdvance? && s.readers[x.t].EndUnmapping? {
      hide SwapNext;
      DrainBalances(b, s.readers[x.t].i, InHand(s.swap));
    } else {
      OthersKeepBooks(s, x);
      hide LockInv, Apply;
    }
  }

  lemma OthersKeepBooks(s: Sys, x: Action)
    requires LockInv(s) && Enabled(s, x) && !x.SwapAdvance? && !x.Map?
    requires x.ReadAdvance? ==> !s.readers[x.t].EndUnmapping?
    ensures var n := Apply(s, x); n.books == s.books && Progress(n) == Progress(s) && InHand(n.swap) == InHand(s.swap)
  {
    hide Drained, SwapNext, Owner;
  }

  /** Nobody is in a bracket when inFlight is zero. */
  lemma NobodyHolds(s: Sys)
    requires CountInv(s) && s.inFlight == 0
    ensures forall t :: t in s.readers ==> Held(s.readers[t]) == {}
  {
    assert Pinners(s.readers) == {};
    forall t | t in s.readers ensures Held(s.readers[t]) == {} {
      assert t !in Pinners(s.readers);
    }
  }

  /** Whatever is served stays served, unless the retired list is cleared. */
  lemma ServedKept(c: Core, h: Handle, a: nat)
    requires c.active.data == c.activeRegion.data && c.previous.data == c.previousRegion.data && a != 0
    ensures Served(c, a) ==> Served(Shifted(c, h), a) && Served(Reverted(c), a)
  {
    RetiringKeepsData(c, c.previousRegion, a);
    RetiringKeepsData(c, c.activeRegion, a);
  }

  lemma RetiringKeepsData(c: Core, r: Region, a: nat)
    requires a != 0
    ensures a in Data(c.retired) || a == r.data ==> a in Data(Retired(c, r))
  {
    assert Data(c.retired) <= Data(Retired(c, r));
    if r.data != 0 { assert Data(Retired(c, r))[|c.retired|] == r.data; }
  }

  lemma ServedKeptBySwapper(s: Sys, v: bool, a: nat)
    requires OwnInv(s) && Enabled(s, SwapAdvance(v)) && !s.swap.SwapUnmapping?
    requires Served(s.books.core, a) && a != 0
    ensures Served(SwapNext(s, v).books.core, a)
  {
    hide Owned, Data;
    ServedKept(s.books.core, if s.swap.ActivateHeld? then s.swap.handle else NO_HANDLE, a);
  }

  lemma HeldKeptBySwapper(s: Sys, v: bool)
    requires LockInv(s) && CountInv(s) && OwnInv(s) && HeldInv(s) && Enabled(s, SwapAdvance(v))
    ensures HeldInv(SwapNext(s, v))
  {
    hide OwnInv, Served, Pinners;
    var s' := SwapNext(s, v);
    if s.swap == SwapTry && s.inFlight == 0 { NobodyHolds(s); }
    assert Draining(s') ==> Draining(s) || s.inFlight == 0;
    if s.swap.SwapUnmapping? {
      assert forall t :: t in s.readers ==> Held(s.readers[t]) == {};
    } else {
      forall a | Served(s.books.core, a) && a != 0
        ensures Served(s'.books.core, a)
      {
        ServedKeptBySwapper(s, v, a);
      }
    }
  }

  lemma HeldKeptByReader(s: Sys, t: nat)
    requires LockInv(s) && CountInv(s) && HeldInv(s) && Enabled(s, ReadAdvance(t))
    ensures HeldInv(ReadNext(s, t))
  {
    hide Pinners, Data, Balanced;
    if s.readers[t] == EndTry && s.inFlight == 0 { NobodyHolds(s); }
  }

  lemma HeldKeptByOthers(s: Sys, x: Action)
    requires LockInv(s) && CountInv(s) && HeldInv(s) && Enabled(s, x) && !x.SwapAdvance?
    ensures HeldInv(Apply(s, x))
  {
    hide Pinners, Data, Balanced;
    if x.ReadAdvance? {
      HeldKeptByReader(s, x.t);
      hide HeldInv, ReadNext;
    }
  }

  lemma PendingSurvives(s: Sys, s': Sys)
    requires s.readers.Keys == s'.readers.Keys
    requires forall t :: t in s.readers && PendingRead(s.readers[t]) ==> PendingRead(s'.readers[t])
    requires s.swap.SwapTry? || s.swap.SwapUnmapping? ==> s'.swap.SwapTry? || s'.swap.SwapUnmapping?
    ensures Pending(s) ==> Pending(s')
  {
    if t :| t in s.readers && PendingRead(s.readers[t]) {
      assert PendingRead(s'.readers[t]);
    }
  }

  lemma PendKept(s: Sys, x: Action)
    requires LockInv(s) && CountInv(s) && PendInv(s) && Enabled(s, x)
    ensures PendInv(Apply(s, x))
  {
    hide LockInv, Pinners, Owned, Data;
    var s' := Apply(s, x);
    if x.SwapAdvance? && (s.swap.SwapTry? || s.swap.SwapUnmapping?) {
    } else if x.ReadAdvance? && (s.readers[x.t].EndTry? || s.readers[x.t].EndUnmapping?) {
      if PendingRead(s'.readers[x.t]) { assert Pending(s'); }
    } else if x.End? && s'.inFlight == 0 {
      assert PendingRead(s'.readers[x.t]);
    } else {
      PendingSurvives(s, s');
    }
  }

  /** The invariant is kept by every atomic step of every thread. */
  lemma StepKeepsInv(s: Sys, a: Action)
    requires Inv(s) && Enabled(s, a)
    ensures Inv(Apply(s, a))
  {
    hide LockInv, CountInv, OwnInv, HeldInv, PendInv, SwapNext, ReadNext;
    LockKept(s, a);
    CountKept(s, a);
    PendKept(s, a);
    if a.SwapAdvance? {
      OwnKeptBySwapper(s, a.verified);
      HeldKeptBySwapper(s, a.verified);
    } else {
      OwnKeptByOthers(s, a);
      HeldKeptByOthers(s, a);
    }
  }

  lemma {:induction false} RunKeepsInv(s: Sys, run: seq<Action>)
    requires Inv(s) && IsRun(s, run)
    ensures Inv(Final(s, run))
    decreases |run|
  {
    if run != [] {
      StepKeepsInv(s, run[0]);
      RunKeepsInv(Apply(s, run[0]), run[1..]);
    }
  }

  // ---------------------------------------------------------------- what it buys

  /**
   In every interleaving, whatever a reader obtained from current() inside its bracket is still
   mapped; it stays mapped until that reader ends its bracket.
  */
  lemma HeldRegionsStayMapped(threads: set<nat>, run: seq<Action>, t: nat, a: nat)
    requires IsRun(Init(threads), run)
    requires var s := Final(Init(threads), run); t in s.readers && a in Held(s.readers[t]) && a != 0
    ensures a in Final(Init(threads), run).books.mapped
  {
    hide Inv;
    InitInv(threads);
    RunKeepsInv(Init(threads), run);
    HeldIsMapped(Final(Init(threads), run), t, a);
  }

  lemma HeldIsMapped(s: Sys, t: nat, a: nat)
    requires Inv(s) && t in s.readers && a in Held(s.readers[t]) && a != 0
    ensures a in s.books.mapped
  {
    assert !Draining(s) && Served(s.books.core, a);
    ServedIsMapped(s.books, InHand(s.swap), a);
  }

  lemma ServedIsMapped(b: Books, hand: multiset<nat>, a: nat)
    requires Balanced(b, 0, hand) && Served(b.core, a) && a != 0
    ensures a in b.mapped
  {
    OwnedParts(b.core);
    if a in Data(b.core.retired) { assert a in Addresses(b.core.retired); }
    OneOwner(b, 0, hand, a);
  }

  lemma StillHeld(s: Sys, x: Action, t: nat, a: nat)
    requires Enabled(s, x) && t in s.readers && a in Held(s.readers[t]) && x != End(t)
    ensures t in Apply(s, x).readers && a in Held(Apply(s, x).readers[t])
  {
    hide Staged, Drained, Shifted, Reverted;
  }

  /** A held address leaves the reader's hands only by its own endInference. */
  lemma HeldUntilEnd(s: Sys, x: Action, t: nat, a: nat)
    requires Inv(s) && Enabled(s, x) && t in s.readers && a in Held(s.readers[t]) && x != End(t)
    ensures t in Apply(s, x).readers && a in Held(Apply(s, x).readers[t])
    ensures a != 0 ==> a in s.books.mapped && a in Apply(s, x).books.mapped
  {
    StillHeld(s, x, t, a);
    hide *;
    StepKeepsInv(s, x);
    if a != 0 {
      HeldIsMapped(s, t, a);
      HeldIsMapped(Apply(s, x), t, a);
    }
  }

  /** Whenever the lock is free the mapped regions are exactly staged + active + previous + retired, without overlap. */
  lemma OwnershipAtRelease(threads: set<nat>, run: seq<Action>)
    requires IsRun(Init(threads), run)
    ensures var s := Final(Init(threads), run);
            s.lock == Free ==> Owned(s.books.core, 0) + InHand(s.swap) == multiset(s.books.mapped)
  {
    InitInv(threads);
    RunKeepsInv(Init(threads), run);
  }

  /** Each mapping is unmapped at most once; those not yet unmapped are the mapped ones. */
  lemma UnmappedAtMostOnce(threads: set<nat>, run: seq<Action>, a: nat)
    requires IsRun(Init(threads), run)
    ensures var s := Final(Init(threads), run); s.books.born[a] == s.books.dead[a] + (if a in s.books.mapped then 1 else 0)
  {
    InitInv(threads);
    RunKeepsInv(Init(threads), run);
  }

  predicate Quiet(s: Sys) {
    s.swap == SwapIdle && forall t :: t in s.readers ==> s.readers[t] == ReadIdle
  }

  /** Nothing leaks: once all threads are idle no retired region is left, and the destructor may run. */
  lemma QuiescenceLeavesNothingRetired(threads: set<nat>, run: seq<Action>)
    requires IsRun(Init(threads), run) && Quiet(Final(Init(threads), run))
    ensures var s := Final(Init(threads), run);
            s.books.core.retired == [] && s.inFlight == 0 && s.lock == Free && Owned(s.books.core, 0) == multiset(s.books.mapped)
  {
    hide Inv;
    InitInv(threads);
    RunKeepsInv(Init(threads), run);
    QuietIsClean(Final(Init(threads), run));
  }

  /**
   Over the whole life of a manager, from construction through any run to a destructor that finds all
   threads idle: each unmap is of a region then mapped, and in the end every mapping made has been
   unmapped exactly once.
  */
  lemma UnmappedOnceOverall(threads: set<nat>, run: seq<Action>)
    requires IsRun(Init(threads), run) && Quiet(Final(Init(threads), run))
    ensures var b := Final(Init(threads), run).books;
            Destroyed(b).mapped == {} && Destroyed(b).dead == b.born == Destroyed(b).born && b.dead <= b.born
  {
    hide Inv, Destroyed;
    InitInv(threads);
    RunKeepsInv(Init(threads), run);
    QuietIsBalanced(Final(Init(threads), run));
    DestroyedIsClean(Final(Init(threads), run).books);
  }

  lemma QuietIsBalanced(s: Sys)
    requires Inv(s) && Quiet(s)
    ensures Balanced(s.books, 0, multiset{})
  {
    hide CountInv, HeldInv, PendInv, Balanced;
  }

  /** And no step of any thread unmaps what is not mapped. */
  lemma StepUnmapsMapped(s: Sys, x: Action, a: nat)
    requires Inv(s) && Enabled(s, x)
    ensures Apply(s, x).books.dead[a] <= s.books.dead[a] + 1
    ensures Apply(s, x).books.dead[a] > s.books.dead[a] ==> a in s.books.mapped && a !in Apply(s, x).books.mapped
  {
    StepKeepsInv(s, x);
    StepLog(s, x);
    hide Inv;
    BornIsDeadOrMapped(s, a);
    BornIsDeadOrMapped(Apply(s, x), a);
  }

  lemma BornIsDeadOrMapped(s: Sys, a: nat)
    requires Inv(s)
    ensures s.books.born[a] == s.books.dead[a] + if a in s.books.mapped then 1 else 0
  {
  }

  /** Only map adds to the record of mappings, and it unmaps nothing. */
  lemma StepLog(s: Sys, x: Action)
    requires Enabled(s, x)
    ensures Apply(s, x).books.born == s.books.born || (x.Map? && Apply(s, x).books.dead == s.books.dead)
  {
    hide Shifted, Reverted;
  }

  lemma QuietIsClean(s: Sys)
    requires Inv(s) && Quiet(s)
    ensures s.books.core.retired == [] && s.inFlight == 0 && s.lock == Free && Owned(s.books.core, 0) == multiset(s.books.mapped)
  {
    hide Data, Owned;
    assert Pinners(s.readers) == {};
  }

  /** inFlight == 0 with something retired means some thread still owes a tryUnmapRetired. */
  lemma RetiredIsOwed(threads: set<nat>, run: seq<Action>)
    requires IsRun(Init(threads), run)
    ensures var s := Final(Init(threads), run); s.inFlight == 0 && s.books.core.retired != [] ==> Pending(s)
  {
    InitInv(threads);
    RunKeepsInv(Init(threads), run);
  }
}
