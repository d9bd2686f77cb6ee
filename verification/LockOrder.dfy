/**
 The debug lock-order check of core/common/lockorder.cpp: the per-thread list of held levels, the check
 against it, and its bookkeeping.
*/
module LockOrder {
  import opened Wrappers

  const MAX_HELD := 16
  const TOP_LEVEL := 6

  // ---------------------------------------------------------------- the held list

  /** Some held level is not below the one being acquired. */
  predicate Violates(held: seq<int>, lvl: int) {
    exists i :: 0 <= i < |held| && held[i] >= lvl
  }

  /** A full list silently drops the new entry. */
  function Recorded(held: seq<int>, lvl: int): seq<int> {
    if |held| < MAX_HELD then held + [lvl] else held
  }

  /** Without the most recent entry equal to lvl, if there is one. */
  function Removed(held: seq<int>, lvl: int): seq<int> {
    if held == [] then []
    else
      var front, last := held[..|held| - 1], held[|held| - 1];
      if last == lvl then front else Removed(front, lvl) + [last]
  }

  lemma {:induction false} RemovedAt(held: seq<int>, lvl: int, i: nat)
    requires i < |held| && held[i] == lvl && forall k :: i < k < |held| ==> held[k] != lvl
    ensures Removed(held, lvl) == held[..i] + held[i + 1..]
  {
    var front := held[..|held| - 1];
    if i < |held| - 1 {
      RemovedAt(front, lvl, i);
      assert held[..i] + held[i + 1..] == (front[..i] + front[i + 1..]) + [held[|held| - 1]];
    } else {
      assert held[..i] + held[i + 1..] == front;
    }
  }

  lemma {:induction false} RemovedAbsent(held: seq<int>, lvl: int)
    requires forall k :: 0 <= k < |held| ==> held[k] != lvl
    ensures Removed(held, lvl) == held
  {
    if held != [] {
      RemovedAbsent(held[..|held| - 1], lvl);
    }
  }

  /** One thread's t_held and t_count. */
  class HeldLevels {
    const held: array<int>
    var count: nat

    ghost predicate Valid()
      reads this
    {
      held.Length == MAX_HELD && count <= MAX_HELD
    }

    ghost function Levels(): seq<int>
      reads this, held
      requires Valid()
    {
      held[..count]
    }

    constructor ()
      ensures Valid() && fresh(held) && Levels() == []
    {
      held := new int[MAX_HELD];
      count := 0;
    }

    /** The check before blocking on the mutex. A report names the first offending level. */
    method CheckAndRecord(lvl: int) returns (offender: Option<int>)
      requires Valid()
      modifies this`count, held
      ensures Valid() && Levels() == Recorded(old(Levels()), lvl)
      ensures offender.Some? <==> Violates(old(Levels()), lvl)
      ensures offender.Some? ==> exists i :: 0 <= i < old(count) && old(Levels())[i] == offender.value >= lvl
                                      && forall k :: 0 <= k < i ==> old(Levels())[k] < lvl
    {
      offender := None;
      for i := 0 to count
        invariant offender == None && forall k :: 0 <= k < i ==> held[k] < lvl
      {
        if held[i] >= lvl {
          offender := Some(held[i]);
          assert Levels()[i] >= lvl;
          break;
        }
      }
      ghost var was := Levels();
      if count < MAX_HELD {
        held[count] := lvl;
        count := count + 1;
        assert Levels() == was + [lvl];
      }
    }

    /** The bookkeeping after the mutex has been released. */
    method Forget(lvl: int)
      requires Valid()
      modifies this`count, held
      ensures Valid() && Levels() == Removed(old(Levels()), lvl)
    {
      ghost var was := Levels();
      var i := count - 1;
      while i >= 0
        invariant -1 <= i < count == old(count) && held[..] == old(held[..])
        invariant forall k :: i < k < count ==> held[k] != lvl
      {
        if held[i] == lvl {
          RemovedAt(was, lvl, i);
          for j := i to count - 1
            invariant count == old(count) && i < count
            invariant forall k :: 0 <= k < i ==> held[k] == was[k]
            invariant forall k :: i <= k < j ==> held[k] == was[k + 1]
            invariant forall k :: j <= k < count ==> held[k] == was[k]
          {
            held[j] := held[j + 1];
          }
          count := count - 1;
          assert Levels() == was[..i] + was[i + 1..];
          return;
        }
        i := i - 1;
      }
      RemovedAbsent(was, lvl);
    }
  }
}
