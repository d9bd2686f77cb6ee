/**
 The fixed-slot ring of core/common/ring_buffer.h, one call at a time. Head and tail only ever grow;
 slot i % capacity holds frame i.
*/
module RingBuffers {
  import opened Arithmetic
  import opened Wrappers

  datatype Policy = DropOldest | DropNewest

  const TWO64 := 0x1_0000_0000_0000_0000
  const COUNTER_LIMIT := 0x8000_0000_0000_0000

  /** Subtraction of 64-bit unsigned counters. */
  function Sub64(a: int, b: int): nat {
    (a - b) % TWO64
  }

  /** acquireWrite's fullness test: a tail ahead of head also reads as full. */
  predicate Full(head: int, tail: int, cap: nat) {
    tail > head || head - tail >= cap
  }

  lemma WrapReadsFull(head: nat, tail: nat, cap: nat)
    requires head < COUNTER_LIMIT && tail < COUNTER_LIMIT && cap < COUNTER_LIMIT
    ensures Sub64(head, tail) >= cap <==> Full(head, tail, cap)
  {
    if tail > head {
      assert head - tail + TWO64 == (head - tail) % TWO64;
    }
  }

  /** The slot of frame i. */
  function Slot(i: nat, cap: nat): (slot: nat)
    requires cap > 0
    ensures slot < cap
  {
    i % cap
  }

  /** Two counters less than a capacity apart use different slots. */
  lemma SlotsDiffer(i: nat, j: nat, cap: nat)
    requires i < j < i + cap
    ensures Slot(i, cap) != Slot(j, cap)
  {
    var a, b := i / cap, j / cap;
    assert i == a * cap + i % cap;
    assert j == b * cap + j % cap;
    if i % cap == j % cap {
      assert (b - a) * cap == b * cap - a * cap;
      MultipleIsFar(b - a, cap);
    }
  }

  class RingBuffer<T(0)> {
    const slots: array<T>
    const capacity: nat
    const policy: Policy
    var head: nat
    var tail: nat
    var dropCount: nat

    ghost predicate Valid()
      reads this
    {
      0 < capacity == slots.Length < COUNTER_LIMIT && tail <= head <= tail + capacity && head < COUNTER_LIMIT
    }

    /** The unread frames, oldest first. */
    ghost function Queue(): seq<T>
      reads this, slots
      requires Valid()
    {
      seq(head - tail, i requires 0 <= i < head - tail reads this, slots requires Valid() => slots[Slot(tail + i, capacity)])
    }

    constructor (capacity: nat, policy: Policy)
      requires 0 < capacity < COUNTER_LIMIT
      ensures Valid() && fresh(slots) && Queue() == [] && head == 0 && dropCount == 0
      ensures this.capacity == capacity && this.policy == policy
    {
      slots := new T[capacity];
      this.capacity, this.policy := capacity, policy;
      head, tail, dropCount := 0, 0, 0;
    }

    method AcquireWrite() returns (slot: Option<nat>)
      requires Valid()
      modifies this`tail, this`dropCount
      ensures Valid()
      ensures slot == None <==> policy == DropNewest && |old(Queue())| == capacity
      ensures slot != None ==> slot.value == Slot(head, capacity) < capacity && |Queue()| < capacity
      ensures Queue() == if |old(Queue())| == capacity && policy == DropOldest then old(Queue())[1..] else old(Queue())
      ensures dropCount == old(dropCount) + if |old(Queue())| == capacity then 1 else 0
    {
      WrapReadsFull(head, tail, capacity);
      if Sub64(head, tail) >= capacity {
        if policy == DropNewest {
          dropCount := dropCount + 1;
          return None;
        }
        tail := tail + 1;
        dropCount := dropCount + 1;
      }
      return Some(Slot(head, capacity));
    }

    /** The caller's in-place fill of the acquired slot. No unread frame is touched. */
    method Fill(slot: nat, x: T)
      requires Valid() && |Queue()| < capacity && slot == Slot(head, capacity)
      modifies slots
      ensures Valid() && Queue() == old(Queue()) && slots[slot] == x
    {
      ghost var was := Queue();
      hide Slot;
      slots[slot] := x;
      forall i | 0 <= i < head - tail
        ensures Queue()[i] == was[i]
      {
        SlotsDiffer(tail + i, head, capacity);
      }
    }

    method CommitWrite()
      requires Valid() && |Queue()| < capacity && head + 1 < COUNTER_LIMIT
      modifies this`head
      ensures Valid() && head == old(head) + 1 && Queue() == old(Queue()) + [slots[Slot(old(head), capacity)]]
    {
      head := head + 1;
    }

    method AcquireRead() returns (slot: Option<nat>)
      requires Valid()
      ensures slot == None <==> Queue() == []
      ensures slot != None ==> slot.value < capacity && slots[slot.value] == Queue()[0]
    {
      if tail >= head {
        return None;
      }
      return Some(Slot(tail, capacity));
    }

    method CommitRead()
      requires Valid() && Queue() != []
      modifies this`tail
      ensures Valid() && Queue() == old(Queue())[1..]
    {
      tail := tail + 1;
    }
  }
}
