/**
 Hot-swap with deferred unmap: the class of core/model/ModelManager.cpp, one call at a time, each
 method against a function of its state. Every unmap is of a region that is mapped at that moment.
*/
module ModelManagement {
  import opened ModelBooks
  import opened Wrappers

  class ModelManager {
    var active: Handle
    var previous: Handle
    var activeRegion: Region
    var previousRegion: Region
    var stagedRegion: Region
    var retired: seq<Region>
    var generation: nat
    var inFlight: int
    var mapped: set<nat>           // the storage's live mappings
    ghost var born: multiset<nat>  // every mapping made
    ghost var dead: multiset<nat>  // every unmap call made

    ghost function Fields(): Core
      reads this
    {
      Core(active, previous, activeRegion, previousRegion, stagedRegion, retired, generation)
    }

    ghost function Books(): Books
      reads this
    {
      ModelBooks.Books(Fields(), mapped, born, dead)
    }

    /** The manager owns each mapped region exactly once. */
    ghost predicate Valid()
      reads this
    {
      Balanced(Books(), 0, multiset{})
    }

    constructor ()
      ensures Valid() && Fields() == EMPTY && inFlight == 0 && mapped == {} && born == dead == multiset{}
    {
      active, previous := NO_HANDLE, NO_HANDLE;
      activeRegion, previousRegion, stagedRegion := NO_REGION, NO_REGION, NO_REGION;
      retired, generation, inFlight, mapped := [], 0, 0, {};
      born, dead := multiset{}, multiset{};
      new;
      assert Data([]) == [];
    }

    /** The storage's mapReadOnly. */
    method Map(r: Region)
      requires r.data !in mapped
      modifies this`mapped, this`born
      ensures Books() == Map1(old(Books()), r.data)
    {
      mapped := mapped + {r.data};
      born := born + multiset{r.data};
    }

    /** The storage's unmap, of a mapped region only. */
    method Unmap(r: Region)
      requires r.data in mapped
      modifies this`mapped, this`dead
      ensures Books() == Unmap1(old(Books()), r.data)
    {
      mapped := mapped - {r.data};
      dead := dead + multiset{r.data};
    }

    method Retire(r: Region)
      modifies this`retired
      ensures Fields() == old(Fields()).(retired := Retired(old(Fields()), r))
    {
      if r.data != 0 { retired := retired + [r]; }
    }

    /** `region` is what mapReadOnly returned, `verified` what verifySignature said. */
    method Stage(region: Option<Region>, verified: bool) returns (r: Option<Handle>)
      requires Valid()
      requires region.Some? ==> region.value.data != 0 && region.value.data !in mapped
      modifies this`stagedRegion, this`mapped, this`born, this`dead
      ensures Valid()
      ensures region.None? ==> r == None && Books() == old(Books())
      ensures region.Some? && verified ==>
                && r == Some(HandleFor(old(Fields()), region.value))
                && Books() == Staged(Map1(old(Books()), region.value.data), region.value)
      ensures region.Some? && !verified ==>
                && r == None
                && Books() == Staged(Staged(Map1(old(Books()), region.value.data), region.value), NO_REGION)
      ensures region.Some? && verified ==>
                && r == Some(Handle(region.value.data, region.value.size, old(generation) + 1))
                && stagedRegion == region.value && region.value.data in mapped
      ensures region.Some? && !verified ==> stagedRegion == NO_REGION && region.value.data !in mapped
      ensures active == old(active) && previous == old(previous) && retired == old(retired) && generation == old(generation)
    {
      hide Balanced, Owner, Released;
      if region == None { return None; }
      MapBalances(Books(), 0, region.value);
      Map(region.value);
      TakeStaged(region.value);
      StagedIsMapped(Books(), multiset{});
      var handle := Handle(stagedRegion.data, stagedRegion.size, generation + 1);
      if !verified {
        DropStaged();
        return None;
      }
      r := Some(handle);
    }

    /** An earlier region that was never activated is released first. */
    method TakeStaged(region: Region)
      requires Balanced(Books(), 0, Owner(region))
      modifies this`stagedRegion, this`mapped, this`dead
      ensures Valid() && stagedRegion == region && Books() == Staged(old(Books()), region)
    {
      StageBalances(Books(), region);
      StagedIsMapped(Books(), Owner(region));
      hide Balanced, Owner;
      if stagedRegion.data != 0 { Unmap(stagedRegion); }
      stagedRegion := region;
    }

    /** A region that failed verification is released again. */
    method DropStaged()
      requires Valid() && stagedRegion.data != 0
      modifies this`stagedRegion, this`mapped, this`dead
      ensures Valid() && Books() == Staged(old(Books()), NO_REGION) && old(stagedRegion).data !in mapped
    {
      assert Owner(NO_REGION) == multiset{};
      StageBalances(Books(), NO_REGION);
      StagedIsMapped(Books(), multiset{});
      hide Balanced, Owner;
      Unmap(stagedRegion);
      stagedRegion := NO_REGION;
    }

    method Activate(staged: Handle) returns (ok: bool)
      requires Valid()
      modifies this
      ensures Valid()
      ensures ok == (staged.data != 0 && staged.size > 0 && staged.data == old(stagedRegion).data) && inFlight == old(inFlight)
      ensures !ok ==> Books() == old(Books())
      ensures ok ==> var b := old(Books()).(core := Shifted(old(Fields()), staged));
                     Books() == if inFlight != 0 then b else DrainedFrom(b, 0)
      ensures generation == old(generation) + if ok then 1 else 0
      ensures ok ==> && active == staged && activeRegion == old(stagedRegion) && stagedRegion == NO_REGION
                     && previous == old(active) && previousRegion == old(activeRegion)
                     && active.data in mapped && (previous.data != 0 ==> previous.data in mapped)
    {
      hide Balanced, DrainedFrom, Shifted;
      if !staged.Valid() { return false; }
      if staged.data != stagedRegion.data { return false; }
      ActivateServes(Books(), staged, inFlight);
      ShiftBalances(Books(), staged);
      ShiftBuffers(staged);
      TryUnmapRetired();
      ok := true;
    }

    /** active -> previous, staged -> active; the old previous is retired. */
    method ShiftBuffers(staged: Handle)
      modifies this`active, this`previous, this`activeRegion, this`previousRegion, this`stagedRegion, this`retired, this`generation
      ensures Books() == old(Books()).(core := Shifted(old(Fields()), staged))
    {
      hide Retired;
      NothingToRetire(Fields(), previousRegion);
      if previousRegion.data != 0 { Retire(previousRegion); }
      Promote(staged);
    }

    method Promote(staged: Handle)
      modifies this`active, this`previous, this`activeRegion, this`previousRegion, this`stagedRegion, this`generation
      ensures var c := old(Fields());
              Fields() == Core(staged, c.active, c.stagedRegion, c.activeRegion, NO_REGION, c.retired, c.generation + 1)
    {
      previous := active;
      previousRegion := activeRegion;
      active := staged;
      activeRegion := stagedRegion;
      stagedRegion := NO_REGION;
      generation := generation + 1;
    }

    method Rollback() returns (ok: bool)
      requires Valid()
      modifies this
      ensures Valid()
      ensures ok == (old(previous).data != 0 && old(previous).size > 0) && inFlight == old(inFlight)
      ensures !ok ==> Books() == old(Books())
      ensures ok ==> var b := old(Books()).(core := Reverted(old(Fields())));
                     Books() == if inFlight != 0 then b else DrainedFrom(b, 0)
      ensures generation == old(generation) + if ok then 1 else 0
      ensures ok ==> && active == old(previous) && activeRegion == old(previousRegion) && active.data in mapped
                     && previous == NO_HANDLE && previousRegion == NO_REGION && stagedRegion == old(stagedRegion)
                     && (old(active).data != 0 ==> if inFlight != 0 then old(activeRegion) in retired else old(active).data !in mapped)
    {
      hide Balanced, DrainedFrom, Reverted;
      if !previous.Valid() { return false; }
      RollbackServes(Books(), inFlight);
      RevertBalances(Books());
      RevertBuffers();
      TryUnmapRetired();
      ok := true;
    }

    /** previous -> active; the active region is retired. */
    method RevertBuffers()
      modifies this`active, this`previous, this`activeRegion, this`previousRegion, this`retired, this`generation
      ensures Books() == old(Books()).(core := Reverted(old(Fields())))
    {
      hide Retired;
      Retire(activeRegion);
      active := previous;
      activeRegion := previousRegion;
      previous := NO_HANDLE;
      previousRegion := NO_REGION;
      generation := generation + 1;
    }

    method Current() returns (h: Handle)
      ensures h == active
    {
      h := active;
    }

    method BeginInference() returns (served: nat)
      modifies this`inFlight
      ensures inFlight == old(inFlight) + 1 && served == generation
    {
      inFlight := inFlight + 1;
      served := generation;
    }

    method EndInference()
      requires Valid()
      modifies this
      ensures Valid() && inFlight == old(inFlight) - 1
      ensures Books() == if inFlight != 0 then old(Books()) else DrainedFrom(old(Books()), 0)
    {
      inFlight := inFlight - 1;
      if inFlight == 0 { TryUnmapRetired(); }
    }

    method TryUnmapRetired()
      requires Valid()
      modifies this`retired, this`mapped, this`dead
      ensures Valid()
      ensures Books() == if inFlight != 0 then old(Books()) else DrainedFrom(old(Books()), 0)
    {
      if inFlight != 0 { return; }
      DrainRetired();
    }

    /** The loop over the retired regions, and the clearing of the list. */
    method DrainRetired()
      requires Valid()
      modifies this`retired, this`mapped, this`dead
      ensures Valid() && Books() == DrainedFrom(old(Books()), 0)
    {
      hide Balanced, Drained, Unmap1;
      ghost var b := Books();
      DrainedFromBalances(b, 0);
      for i := 0 to |retired|
        invariant retired == old(retired) && Balanced(Books(), i, multiset{})
        invariant DrainedFrom(Books(), i) == DrainedFrom(b, 0)
      {
        ghost var c := Books();
        DrainBalances(c, i, multiset{});
        RetiredIsMapped(c, i);
        DrainStep(c, i);
        Unmap(retired[i]);
      }
      DrainEnd(Books());
      retired := [];
    }

    /** The destructor: every mapping ever made has now been unmapped exactly once. */
    method Destroy()
      requires Valid()
      modifies this
      ensures Books() == Destroyed(old(Books()))
      ensures mapped == {} && born == old(born) == dead
    {
      DestroyedIsClean(Books());
      DestructorUnmapsMapped(Books());
      DrainRetired();
      hide *;
      ghost var d := Books();
      if previousRegion.data != 0 { Unmap(previousRegion); }
      if activeRegion.data != 0 { Unmap(activeRegion); }
      if stagedRegion.data != 0 { Unmap(stagedRegion); }
    }
  }
}
