/** Index arithmetic of the ring over an unsigned 64-bit size type.

    Every sum is written with its wrap-around; the contracts say what the wrapped sum is. */
module Indices {
  const SIZE_MODULUS: nat := 0x1_0000_0000_0000_0000
  const MAX_CAPACITY: nat := 0x8000_0000_0000_0000

  function Wrapped(n: nat): nat {
    n % SIZE_MODULUS
  }

  /** The index after `i`, going round at the capacity. */
  function NextIndex(i: nat, capacity: nat): nat
    requires i < capacity
  {
    if i + 1 == capacity then 0 else i + 1
  }

  /** The index before `i`, going round at zero. */
  function PreviousIndex(i: nat, capacity: nat): (previous: nat)
    requires i < capacity
    ensures previous < capacity && NextIndex(previous, capacity) == i
  {
    if i == 0 then capacity - 1 else i - 1
  }

  /** The slot `offset` places after `head`. */
  function SlotIndex(head: nat, offset: nat, capacity: nat): nat
    requires head < capacity && offset <= capacity
  {
    if head + offset < capacity then head + offset else head + offset - capacity
  }

  /** Up to a capacity of 2^63 the machine's `(i + 1) % capacity` is the next index. */
  lemma NextIndexIsMachine(i: nat, capacity: nat)
    requires i < capacity <= MAX_CAPACITY
    ensures Wrapped(i + 1) % capacity == NextIndex(i, capacity)
  {
    WrapKeeps(i + 1);
    if i + 1 == capacity {
      Remainder(i + 1, 1, 0, capacity);
    } else {
      Remainder(i + 1, 0, i + 1, capacity);
    }
  }

  /** Up to a capacity of 2^63 the machine's `(head + offset) % capacity` is the slot, without wrap. */
  lemma SlotIndexIsMachine(head: nat, offset: nat, capacity: nat)
    requires head < capacity <= MAX_CAPACITY && offset <= capacity
    ensures Wrapped(head + offset) % capacity == SlotIndex(head, offset, capacity)
    ensures (head + offset) % capacity == SlotIndex(head, offset, capacity)
  {
    WrapKeeps(head + offset);
    if head + offset < capacity {
      Remainder(head + offset, 0, head + offset, capacity);
    } else {
      Remainder(head + offset, 1, head + offset - capacity, capacity);
    }
  }

  /** How many places slot `slot` lies after `head`: the inverse of `SlotIndex`. */
  function Offset(head: nat, slot: nat, capacity: nat): (offset: nat)
    requires head < capacity && slot < capacity
    ensures offset < capacity && SlotIndex(head, offset, capacity) == slot
    ensures forall i :: 0 <= i < capacity && SlotIndex(head, i, capacity) == slot ==> i == offset
  {
    if slot >= head then slot - head else slot + capacity - head
  }

  /** The element index as the machine computes it, for a capacity of any size. */
  function MachineSlot(head: nat, offset: nat, capacity: nat): nat
    requires 0 < capacity
  {
    Wrapped(head + offset) % capacity
  }

  /** The machine's element index is the mathematical one for every pair of positions exactly when
      the capacity is at most 2^63: past that bound some pair wraps to the wrong slot. */
  lemma IndexSumsExactIff(capacity: nat)
    requires 0 < capacity < SIZE_MODULUS
    ensures (forall head: nat, offset: nat | head < capacity && offset < capacity ::
               MachineSlot(head, offset, capacity) == (head + offset) % capacity)
       <==> capacity <= MAX_CAPACITY
  {
    if capacity > MAX_CAPACITY {
      WrapMisses(capacity);
      var head: nat, offset: nat := capacity - 1, SIZE_MODULUS - capacity + 1;
      assert MachineSlot(head, offset, capacity) != (head + offset) % capacity;
    } else {
      forall head: nat, offset: nat | head < capacity && offset < capacity
        ensures MachineSlot(head, offset, capacity) == (head + offset) % capacity
      {
        WrapKeeps(head + offset);
      }
    }
  }

  lemma WrapKeeps(n: nat)
    requires n < SIZE_MODULUS
    ensures Wrapped(n) == n
  {
  }

  /** Beyond 2^63 the last slot and an offset of 2^64 - capacity + 1 sum to 2^64, which wraps. */
  lemma WrapMisses(capacity: nat)
    requires MAX_CAPACITY < capacity < SIZE_MODULUS
    ensures MachineSlot(capacity - 1, SIZE_MODULUS - capacity + 1, capacity) == 0
    ensures SIZE_MODULUS % capacity == SIZE_MODULUS - capacity
  {
    Remainder(SIZE_MODULUS, 1, SIZE_MODULUS - capacity, capacity);
    Remainder(0, 0, 0, capacity);
  }

  /** A remainder is known from any decomposition with a small enough rest. */
  lemma Remainder(n: nat, quotient: nat, rest: nat, m: nat)
    requires rest < m && n == quotient * m + rest
    ensures n % m == rest
  {
    var q, r := n / m, n % m;
    assert n == q * m + r;
    Distribute(quotient, q, m);
    SmallMultiple(quotient - q, m);
  }

  lemma Distribute(a: int, b: int, m: int)
    ensures (a - b) * m == a * m - b * m
  {
  }

  lemma SmallMultiple(d: int, m: int)
    requires 0 < m
    ensures d > 0 ==> d * m >= m
    ensures d < 0 ==> d * m <= 0 - m
  {
    if d > 0 {
      Distribute(d, 1, m);
      assert (d - 1) * m >= 0;
    } else if d < 0 {
      Distribute(-1, d, m);
      assert (-1 - d) * m >= 0;
    }
  }

  /** Adding one moves a remainder to the next index. */
  lemma NextRemainder(n: nat, m: nat)
    requires 0 < m
    ensures (n + 1) % m == NextIndex(n % m, m)
  {
    var q, r := n / m, n % m;
    if r + 1 == m {
      assert (q + 1) * m == q * m + m;
      Remainder(n + 1, q + 1, 0, m);
    } else {
      Remainder(n + 1, q, r + 1, m);
    }
  }

  /** Adding under a remainder. */
  lemma RemainderOfSum(a: nat, b: nat, m: nat)
    requires 0 < m
    ensures (a % m + b) % m == (a + b) % m
  {
    var p, q, r := a / m, (a % m + b) / m, (a % m + b) % m;
    assert a == p * m + a % m;
    assert a % m + b == q * m + r;
    Distribute(p, -q, m);
    Remainder(a + b, p + q, r, m);
  }
}
