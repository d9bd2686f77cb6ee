/**
 What core/model/ModelManager.cpp keeps under its lock, what its operations do to it, and the books on
 the other side: which regions are mapped, and how often each has been mapped and unmapped. A
 memory-mapped region is identified by its address; 0 is the null pointer.
*/
module ModelBooks {

  datatype Region = Region(data: nat, size: nat)

  const NO_REGION := Region(0, 0)

  datatype Handle = Handle(data: nat, size: nat, generation: nat) {
    predicate Valid() { data != 0 && size > 0 }
  }

  const NO_HANDLE := Handle(0, 0, 0)

  /** The fields guarded by the lock. */
  datatype Core = Core(active: Handle, previous: Handle,
                       activeRegion: Region, previousRegion: Region, stagedRegion: Region,
                       retired: seq<Region>, generation: nat)

  const EMPTY := Core(NO_HANDLE, NO_HANDLE, NO_REGION, NO_REGION, NO_REGION, [], 0)

  function HandleFor(c: Core, r: Region): Handle {
    Handle(r.data, r.size, c.generation + 1)
  }

  function Retired(c: Core, r: Region): seq<Region> {
    if r.data != 0 then c.retired + [r] else c.retired
  }

  lemma NothingToRetire(c: Core, r: Region)
    ensures r.data == 0 ==> Retired(c, r) == c.retired
  {
  }

  /** activate(): active becomes previous, staged becomes active, the old previous is retired. */
  function Shifted(c: Core, h: Handle): Core {
    Core(h, c.active, c.stagedRegion, c.activeRegion, NO_REGION, Retired(c, c.previousRegion), c.generation + 1)
  }

  /** rollback(): previous becomes active again, the bad active is retired. */
  function Reverted(c: Core): Core {
    Core(c.previous, NO_HANDLE, c.previousRegion, NO_REGION, c.stagedRegion, Retired(c, c.activeRegion), c.generation + 1)
  }

  function Data(rs: seq<Region>): (d: seq<nat>)
    ensures |d| == |rs|
  {
    seq(|rs|, i requires 0 <= i < |rs| => rs[i].data)
  }

  function Addresses(rs: seq<Region>): multiset<nat> {
    multiset(Data(rs))
  }

  function Owner(r: Region): multiset<nat> {
    if r.data == 0 then multiset{} else multiset{r.data}
  }

  /** Everything the manager is responsible for unmapping, from retired[k] on. */
  function Owned(c: Core, k: nat): multiset<nat>
    requires k <= |c.retired|
  {
    Owner(c.activeRegion) + Owner(c.previousRegion) + Owner(c.stagedRegion) + Addresses(c.retired[k..])
  }

  lemma AddressesConcat(a: seq<Region>, b: seq<Region>)
    ensures Addresses(a + b) == Addresses(a) + Addresses(b)
  {
    assert Data(a + b) == Data(a) + Data(b);
  }

  lemma RetiredOwners(c: Core, r: Region)
    ensures Addresses(Retired(c, r)) == Addresses(c.retired) + Owner(r)
  {
    AddressesConcat(c.retired, [r]);
    assert Data([r]) == [r.data];
  }

  // ---------------------------------------------------------------- what is mapped

  /**
   The manager's guarded fields and the storage's side of the story: what is mapped, and a log of
   the addresses passed to its map and unmap calls.
  */
  datatype Books = Books(core: Core, mapped: set<nat>, born: multiset<nat>, dead: multiset<nat>)

  function Map1(b: Books, a: nat): Books {
    b.(mapped := b.mapped + {a}, born := b.born + multiset{a})
  }

  function Unmap1(b: Books, a: nat): Books {
    b.(mapped := b.mapped - {a}, dead := b.dead + multiset{a})
  }

  /** The region is unmapped, if it is one. */
  function Released(b: Books, r: Region): Books {
    if r.data != 0 then Unmap1(b, r.data) else b
  }

  /** stage() under the lock: an unactivated earlier region is released first. */
  function Staged(b: Books, r: Region): Books {
    Released(b, b.core.stagedRegion).(core := b.core.(stagedRegion := r))
  }

  /** The next step of tryUnmapRetired's loop: unmap one region, or clear the list after the last. */
  function Drained(b: Books, i: nat): Books {
    if i < |b.core.retired| then Unmap1(b, b.core.retired[i].data) else b.(core := b.core.(retired := []))
  }

  /** The loop from region i on. */
  function DrainedFrom(b: Books, i: nat): Books
    decreases |b.core.retired| - i
  {
    if i < |b.core.retired| then DrainedFrom(Drained(b, i), i + 1) else Drained(b, i)
  }

  /** The destructor: retired, previous, active and staged region in this order. */
  function Destroyed(b: Books): Books {
    var d := DrainedFrom(b, 0);
    Released(Released(Released(d, d.core.previousRegion), d.core.activeRegion), d.core.stagedRegion)
  }

  // ---------------------------------------------------------------- the books balance

  /**
   The mapped regions are exactly the disjoint union of what the manager owns (retired regions from
   the k-th on) and what the swapper has in hand; a multiset equal to a set has no duplicates.
  */
  predicate Balanced(b: Books, k: nat, hand: multiset<nat>) {
    && k <= |b.core.retired|
    && Owned(b.core, k) + hand == multiset(b.mapped)
    && b.born == b.dead + multiset(b.mapped)
    && b.core.active.data == b.core.activeRegion.data
    && b.core.previous.data == b.core.previousRegion.data
  }

  lemma OwnedParts(c: Core)
    ensures Owned(c, 0) == Owner(c.activeRegion) + Owner(c.previousRegion) + Owner(c.stagedRegion) + Addresses(c.retired)
  {
    assert c.retired[0..] == c.retired;
  }

  lemma OneOwner(b: Books, k: nat, hand: multiset<nat>, a: nat)
    requires Balanced(b, k, hand) && a in Owned(b.core, k)
    ensures a in b.mapped && Owned(b.core, k)[a] == 1 && hand[a] == 0
    ensures multiset(b.mapped - {a}) == multiset(b.mapped) - multiset{a}
  {
    hide Owned;
    assert multiset(b.mapped)[a] == Owned(b.core, k)[a] + hand[a];
  }

  /** Staging releases a region staged earlier and takes the new one out of the swapper's hand. */
  lemma StageBalances(b: Books, r: Region)
    requires Balanced(b, 0, Owner(r))
    ensures Balanced(Staged(b, r), 0, multiset{})
  {
    var g := b.core.stagedRegion;
    OwnedParts(b.core);
    OwnedParts(Staged(b, r).core);
    hide Addresses, Owned, Owner;
    ReleaseOne(Owner(b.core.activeRegion) + Owner(b.core.previousRegion) + Addresses(b.core.retired) + Owner(r), g, b);
  }

  /** Activating hands regions from one owner to the next. */
  lemma ShiftBalances(b: Books, h: Handle)
    requires Balanced(b, 0, multiset{}) && h.data == b.core.stagedRegion.data
    ensures Balanced(b.(core := Shifted(b.core, h)), 0, multiset{})
  {
    var c := b.core;
    RetiredOwners(c, c.previousRegion);
    OwnedParts(c);
    OwnedParts(Shifted(c, h));
    hide Owned, Addresses, Retired;
    assert Owned(Shifted(c, h), 0) == Owned(c, 0);
  }

  lemma RevertBalances(b: Books)
    requires Balanced(b, 0, multiset{})
    ensures Balanced(b.(core := Reverted(b.core)), 0, multiset{})
  {
    var c := b.core;
    RetiredOwners(c, c.activeRegion);
    OwnedParts(c);
    OwnedParts(Reverted(c));
    hide Owned, Addresses, Retired;
    assert Owned(Reverted(c), 0) == Owned(c, 0);
  }

  lemma PeelRetired(c: Core, i: nat)
    requires i < |c.retired|
    ensures Owned(c, i) == Owned(c, i + 1) + multiset{c.retired[i].data}
  {
    var rest := c.retired[i + 1..];
    assert c.retired[i..] == [c.retired[i]] + rest;
    AddressesConcat([c.retired[i]], rest);
    assert Data([c.retired[i]]) == [c.retired[i].data];
  }

  lemma TakeOne(x: multiset<nat>, y: multiset<nat>, a: nat, total: multiset<nat>)
    requires x + multiset{a} + y == total
    ensures x + y == total - multiset{a}
  {
  }

  /** Unmapping the next retired region removes exactly one owner; after the last the list is cleared. */
  lemma DrainBalances(b: Books, i: nat, hand: multiset<nat>)
    requires Balanced(b, i, hand)
    ensures Balanced(Drained(b, i), if i < |b.core.retired| then i + 1 else 0, hand)
  {
    if i < |b.core.retired| {
      var a := b.core.retired[i].data;
      PeelRetired(b.core, i);
      hide Owned, Data;
      OneOwner(b, i, hand, a);
      TakeOne(Owned(b.core, i + 1), hand, a, multiset(b.mapped));
    } else {
      assert b.core.retired[i..] == [] && Drained(b, i).core.retired[0..] == [];
    }
  }

  lemma MapBalances(b: Books, k: nat, r: Region)
    requires Balanced(b, k, multiset{}) && r.data != 0 && r.data !in b.mapped
    ensures Balanced(Map1(b, r.data), k, Owner(r))
  {
    hide Owned;
    assert multiset(b.mapped + {r.data}) == multiset(b.mapped) + multiset{r.data};
  }

  lemma StagedIsMapped(b: Books, hand: multiset<nat>)
    requires Balanced(b, 0, hand)
    ensures b.core.stagedRegion.data != 0 ==> b.core.stagedRegion.data in b.mapped
  {
    if b.core.stagedRegion.data != 0 {
      assert b.core.stagedRegion.data in Owned(b.core, 0);
      OneOwner(b, 0, hand, b.core.stagedRegion.data);
    }
  }

  lemma RetiredIsMapped(b: Books, i: nat)
    requires Balanced(b, i, multiset{}) && i < |b.core.retired|
    ensures b.core.retired[i].data in b.mapped
  {
    PeelRetired(b.core, i);
    hide Owned;
    OneOwner(b, i, multiset{}, b.core.retired[i].data);
  }

  lemma DrainStep(b: Books, i: nat)
    requires i < |b.core.retired|
    ensures Drained(b, i) == Unmap1(b, b.core.retired[i].data)
    ensures DrainedFrom(Drained(b, i), i + 1) == DrainedFrom(b, i)
  {
  }

  lemma DrainEnd(b: Books)
    ensures DrainedFrom(b, |b.core.retired|) == b.(core := b.core.(retired := []))
  {
  }

  /** Draining keeps the books balanced and empties the list. */
  lemma {:induction false} DrainedFromBalances(b: Books, i: nat)
    requires Balanced(b, i, multiset{})
    ensures Balanced(DrainedFrom(b, i), 0, multiset{})
    ensures DrainedFrom(b, i).core == b.core.(retired := []) && DrainedFrom(b, i).born == b.born
    decreases |b.core.retired| - i
  {
    DrainBalances(b, i, multiset{});
    hide Balanced;
    if i < |b.core.retired| { DrainedFromBalances(Drained(b, i), i + 1); }
  }

  /** One owner among several: its region is mapped, and unmapping it leaves the others'. */
  lemma ReleaseOne(rest: multiset<nat>, r: Region, b: Books)
    requires rest + Owner(r) == multiset(b.mapped) && b.born == b.dead + multiset(b.mapped)
    ensures r.data != 0 ==> r.data in b.mapped
    ensures rest == multiset(Released(b, r).mapped) && b.born == Released(b, r).dead + multiset(Released(b, r).mapped)
  {
    if r.data != 0 {
      assert multiset(b.mapped)[r.data] == 1;
      assert multiset(b.mapped - {r.data}) == multiset(b.mapped) - multiset{r.data};
    }
  }

  /** The destructor unmaps each region while it is mapped, */
  lemma DestructorUnmapsMapped(b: Books)
    requires Balanced(b, 0, multiset{})
    ensures var d := DrainedFrom(b, 0);
            var p, a, g := d.core.previousRegion, d.core.activeRegion, d.core.stagedRegion;
            && (p.data != 0 ==> p.data in d.mapped)
            && (a.data != 0 ==> a.data in Released(d, p).mapped)
            && (g.data != 0 ==> g.data in Released(Released(d, p), a).mapped)
            && multiset(Released(Released(Released(d, p), a), g).mapped) == multiset{}
            && Released(Released(Released(d, p), a), g).dead == b.born
  {
    DrainedFromBalances(b, 0);
    var d := DrainedFrom(b, 0);
    var p, a, g := d.core.previousRegion, d.core.activeRegion, d.core.stagedRegion;
    ThreeOwners(d);
    ReleasedKeepsBorn(d, p);
    ReleasedKeepsBorn(Released(d, p), a);
    ReleasedKeepsBorn(Released(Released(d, p), a), g);
    hide *;
    ReleaseOne(Owner(a) + Owner(g), p, d);
    ReleaseOne(Owner(g), a, Released(d, p));
    ReleaseOne(multiset{}, g, Released(Released(d, p), a));
  }

  lemma ReleasedKeepsBorn(b: Books, r: Region)
    ensures Released(b, r).born == b.born
  {
  }

  /** and nothing is left: afterwards every mapping ever made has been unmapped once. */
  lemma DestroyedIsClean(b: Books)
    requires Balanced(b, 0, multiset{})
    ensures Destroyed(b).mapped == {} && Destroyed(b).dead == b.born == Destroyed(b).born
  {
    DestructorUnmapsMapped(b);
    DrainedFromBalances(b, 0);
    var d := DrainedFrom(b, 0);
    var p, a, g := d.core.previousRegion, d.core.activeRegion, d.core.stagedRegion;
    ReleasedKeepsBorn(d, p);
    ReleasedKeepsBorn(Released(d, p), a);
    ReleasedKeepsBorn(Released(Released(d, p), a), g);
    hide DrainedFrom, Released, Balanced;
    NothingLeft(Destroyed(b).mapped);
  }

  /** With nothing retired there are at most three mapped regions. */
  lemma ThreeOwners(d: Books)
    requires Balanced(d, 0, multiset{}) && d.core.retired == []
    ensures Owner(d.core.activeRegion) + Owner(d.core.stagedRegion) + Owner(d.core.previousRegion) == multiset(d.mapped)
    ensures d.born == d.dead + multiset(d.mapped)
  {
    assert d.core.retired[0..] == [] && Data([]) == [];
  }

  lemma NothingLeft(m: set<nat>)
    ensures multiset(m) == multiset{} <==> m == {}
  {
    assert forall x :: x in m ==> x in multiset(m);
  }

  // ---------------------------------------------------------------- which model is served

  /** activate() up to its return, and rollback(): the unmapping only if nothing is in flight. */
  function Activated(b: Books, h: Handle, inFlight: int): Books {
    var s := b.(core := Shifted(b.core, h));
    if inFlight != 0 then s else DrainedFrom(s, 0)
  }

  function RolledBack(b: Books, inFlight: int): Books {
    var r := b.(core := Reverted(b.core));
    if inFlight != 0 then r else DrainedFrom(r, 0)
  }

  lemma BuffersAreMapped(b: Books)
    requires Balanced(b, 0, multiset{})
    ensures b.core.active.data != 0 ==> b.core.active.data in b.mapped
    ensures b.core.previous.data != 0 ==> b.core.previous.data in b.mapped
    ensures b.core.active.data != 0 ==> b.core.active.data != b.core.previous.data && b.core.active.data != b.core.stagedRegion.data
    ensures b.core.retired == [] ==>
              forall a :: a in b.mapped ==> a == b.core.active.data || a == b.core.previous.data || a == b.core.stagedRegion.data
  {
    OwnedParts(b.core);
    var o := Owned(b.core, 0);
    hide Owned;
    assert o == multiset(b.mapped);
    var a, p, g := b.core.active.data, b.core.previous.data, b.core.stagedRegion.data;
    if a != 0 {
      assert o[a] >= 1 && (a == p ==> o[a] >= 2) && (a == g ==> o[a] >= 2);
      assert multiset(b.mapped)[a] <= 1;
    }
    if p != 0 { assert o[p] >= 1; }
    if b.core.retired == [] {
      assert Addresses(b.core.retired) == multiset{};
      forall x | x in b.mapped
        ensures x == a || x == p || x == g
      {
        assert x in o;
      }
    }
  }

  /** After a successful activation the staged handle is served, the one before is kept, and both are mapped. */
  lemma ActivateServes(b: Books, h: Handle, inFlight: int)
    requires Balanced(b, 0, multiset{}) && h.Valid() && h.data == b.core.stagedRegion.data
    ensures var n := Activated(b, h, inFlight);
            && Balanced(n, 0, multiset{})
            && n.core.active == h && n.core.activeRegion == b.core.stagedRegion && n.core.stagedRegion == NO_REGION
            && n.core.previous == b.core.active && n.core.previousRegion == b.core.activeRegion
            && n.core.generation == b.core.generation + 1
            && h.data in n.mapped && (b.core.active.data != 0 ==> b.core.active.data in n.mapped)
  {
    ShiftBalances(b, h);
    DrainedFromBalances(b.(core := Shifted(b.core, h)), 0);
    hide Balanced, DrainedFrom;
    BuffersAreMapped(Activated(b, h, inFlight));
  }

  /** After a successful rollback the previous handle is served again, and the bad model is retired or unmapped. */
  lemma RollbackServes(b: Books, inFlight: int)
    requires Balanced(b, 0, multiset{}) && b.core.previous.Valid()
    ensures var n := RolledBack(b, inFlight);
            && Balanced(n, 0, multiset{})
            && n.core.active == b.core.previous && n.core.activeRegion == b.core.previousRegion && n.core.active.data in n.mapped
            && n.core.generation == b.core.generation + 1
            && n.core.previous == NO_HANDLE && n.core.previousRegion == NO_REGION && n.core.stagedRegion == b.core.stagedRegion
            && (b.core.active.data != 0 ==>
                  if inFlight != 0 then b.core.activeRegion in n.core.retired else b.core.active.data !in n.mapped)
  {
    RevertBalances(b);
    BuffersAreMapped(b);
    DrainedFromBalances(b.(core := Reverted(b.core)), 0);
    assert b.core.active.data == b.core.activeRegion.data;
    assert b.core.active.data != 0 ==> b.core.activeRegion in Reverted(b.core).retired;
    hide Balanced, DrainedFrom;
    BuffersAreMapped(RolledBack(b, inFlight));
  }

  /**
   Rollback undoes activate: whatever is in flight at either moment, the handle and region served before are
   served again and still mapped, and the model activated in between is retired, or unmapped if nothing is in flight.
  */
  lemma RollbackUndoesActivate(b: Books, h: Handle, m: int, n: int)
    requires Balanced(b, 0, multiset{}) && h.Valid() && h.data == b.core.stagedRegion.data && b.core.active.Valid()
    ensures var r := RolledBack(Activated(b, h, m), n);
            && r.core.active == b.core.active && r.core.activeRegion == b.core.activeRegion && b.core.active.data in r.mapped
            && (if n != 0 then b.core.stagedRegion in r.core.retired else h.data !in r.mapped)
  {
    hide Balanced, Activated, RolledBack;
    ActivateServes(b, h, m);
    RollbackServes(Activated(b, h, m), n);
  }
}
