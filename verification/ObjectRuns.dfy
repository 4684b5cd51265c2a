/** Whole runs, drifted or not: exactly when every touch meets a slot in the state it needs. */
module ObjectRuns {
  import opened Indices
  import opened RingModel
  import opened Refinement
  import opened Lifetimes
  import opened SlidingWindow

  /** What a caller can know by counting its own calls: the size; the overwrites since the last clear;
      and the removals and the insertions since the last overwrite or clear. All but the size are
      counted modulo the capacity. */
  datatype Counts = Counts(size: nat, drift: nat, removed: nat, added: nat)

  const START: Counts := Counts(0, 0, 0, 0)

  predicate Fits(capacity: nat, c: Counts) {
    c.size <= capacity && c.drift < capacity && c.removed < capacity && c.added < capacity
  }

  function Count<T>(capacity: nat, c: Counts, op: Op<T>): (next: Counts)
    requires Fits(capacity, c)
    ensures Fits(capacity, next)
  {
    if op.Adds() then
      if c.size == capacity then Counts(c.size, NextIndex(c.drift, capacity), 0, 0)
      else c.(size := c.size + 1, added := NextIndex(c.added, capacity))
    else if op.Pop? && 0 < c.size then c.(size := c.size - 1, removed := NextIndex(c.removed, capacity))
    else if op.Clear? then START
    else c
  }

  function CountAll<T>(capacity: nat, c: Counts, ops: seq<Op<T>>): (end: Counts)
    requires Fits(capacity, c)
    ensures Fits(capacity, end)
    decreases |ops|
  {
    if ops == [] then c else CountAll(capacity, Count(capacity, c, ops[0]), ops[1..])
  }

  /** The operation will find its slots as it needs them. An insertion with room must not reach a slot
      that still holds an object, a removal must not reach a slot that has none, and out of step a clear
      needs that the insertions since the last overwrite are none, or went all round. */
  predicate Safe<T>(capacity: nat, c: Counts, op: Op<T>) {
    && (op.Adds() && c.size < capacity && c.added < c.drift ==> c.size < c.drift)
    && (op.Pop? && 0 < c.size && c.removed < c.added ==> c.drift < c.size)
    && (op.Clear? && 0 < c.size && 0 < c.drift ==> c.added == 0)
  }

  predicate ObjectsSafe<T>(capacity: nat, c: Counts, ops: seq<Op<T>>)
    requires Fits(capacity, c)
    decreases |ops|
  {
    ops != [] ==> Safe(capacity, c, ops[0]) && ObjectsSafe(capacity, Count(capacity, c, ops[0]), ops[1..])
  }

  // ---------------------------------------------------------------------------------------------
  // Where the objects are
  // ---------------------------------------------------------------------------------------------

  /** Since the last overwrite or clear the removals have gone round no less often than the insertions
      and what was there before. */
  predicate Ahead(c: Counts) {
    c.removed < c.added || (c.removed == c.added && c.size == 0)
  }

  /** What the counts of a run obey as long as it is safe. */
  predicate Settled(capacity: nat, c: Counts) {
    && Fits(capacity, c)
    && if Ahead(c) then c.size == c.added - c.removed && (c.removed == 0 || c.drift <= c.size)
       else c.size == capacity + c.added - c.removed && (c.added == 0 || c.drift == 0 || c.size <= c.drift)
  }

  /** Whether the slot `o` places after the start holds an object; the start is where the head stood at
      the last overwrite or clear. */
  predicate Occupied(capacity: nat, c: Counts, o: nat)
    requires Fits(capacity, c) && o < capacity
  {
    var filled, emptied := SlotIndex(o, c.drift, capacity) < c.added, o < c.removed;
    if Ahead(c) then filled && !emptied else filled || !emptied
  }

  /** Where the head stood at the last overwrite or clear. */
  function Origin<T>(r: Ring<T>, c: Counts): (origin: nat)
    requires r.Usable() && Fits(|r.slots|, c)
    ensures origin < |r.slots|
  {
    Offset(c.removed, r.head, |r.slots|)
  }

  /** The counts say which slots hold objects. */
  ghost predicate Accounts<T>(r: Ring<T>, c: Counts) {
    && r.Usable()
    && Settled(|r.slots|, c)
    && c.size == r.count
    && SlotIndex(r.tail, c.drift, |r.slots|) == r.End()
    && forall j: nat | j < |r.slots| ::
         r.slots[j].Live? <==> Occupied(|r.slots|, c, Offset(Origin(r, c), j, |r.slots|))
  }

  lemma NewAccounts<T>(capacity: nat)
    requires 0 < capacity <= MAX_CAPACITY
    ensures Accounts(New<T>(capacity), START)
  {
  }

  /** An insertion with room finds raw storage. */
  lemma TailRawIff<T>(r: Ring<T>, c: Counts, x: T)
    requires Accounts(r, c) && !r.full
    ensures r.slots[r.tail].Raw? <==> Safe(|r.slots|, c, Push(x))
  {
  }

  /** A removal or an overwrite finds an object. */
  lemma HeadLiveIff<T>(r: Ring<T>, c: Counts)
    requires Accounts(r, c) && 0 < r.count
    ensures r.slots[r.head].Live? <==> Safe<T>(|r.slots|, c, Pop)
    ensures r.full ==> r.slots[r.head].Live?
  {
  }

  lemma FullIsLive<T>(r: Ring<T>, c: Counts)
    requires Accounts(r, c) && r.full
    ensures forall j: nat | j < |r.slots| :: r.slots[j].Live?
  {
  }

  lemma AccountsOverwrite<T>(r: Ring<T>, c: Counts, op: Op<T>)
    requires Accounts(r, c) && op.Adds() && r.full
    ensures Accounts(r.Next(op), Count(|r.slots|, c, op))
  {
    FullIsLive(r, c);
    NextOfAdd(r, op);
  }

  /** A safe insertion with room occupies the slot at the tail and no other. */
  lemma OccupiedAfterAdd<T>(capacity: nat, c: Counts, op: Op<T>, o: nat)
    requires Settled(capacity, c) && c.size < capacity && op.Adds() && Safe(capacity, c, op) && o < capacity
    ensures Settled(capacity, Count(capacity, c, op))
    ensures Occupied(capacity, Count(capacity, c, op), o) <==>
            Occupied(capacity, c, o) || SlotIndex(o, c.drift, capacity) == c.added
  {
  }

  /** A safe removal frees the slot at the head and no other. */
  lemma OccupiedAfterPop<T>(capacity: nat, c: Counts, op: Op<T>, o: nat)
    requires Settled(capacity, c) && 0 < c.size && op.Pop? && Safe(capacity, c, op) && o < capacity
    ensures Settled(capacity, Count(capacity, c, op))
    ensures Occupied(capacity, Count(capacity, c, op), o) <==> Occupied(capacity, c, o) && o != c.removed
  {
  }

  lemma TailPlace<T>(r: Ring<T>, c: Counts)
    requires Accounts(r, c) && !r.full
    ensures SlotIndex(Offset(Origin(r, c), r.tail, |r.slots|), c.drift, |r.slots|) == c.added
  {
  }

  lemma TailPlaceOnly<T>(r: Ring<T>, c: Counts, j: nat)
    requires Accounts(r, c) && !r.full && j < |r.slots|
    ensures j == r.tail <==> SlotIndex(Offset(Origin(r, c), j, |r.slots|), c.drift, |r.slots|) == c.added
  {
    TailPlace(r, c);
  }

  lemma TailMoves<T>(r: Ring<T>, c: Counts, op: Op<T>)
    requires Accounts(r, c) && op.Adds() && !r.full
    ensures var r', c' := r.Next(op), Count(|r.slots|, c, op);
            && Origin(r', c') == Origin(r, c)
            && SlotIndex(r'.tail, c'.drift, |r.slots|) == r'.End()
            && c'.size == r'.count && r'.slots == r.slots[r.tail := Live(op.x)]
  {
    NextOfAdd(r, op);
  }

  lemma AccountsAdd<T>(r: Ring<T>, c: Counts, op: Op<T>)
    requires Accounts(r, c) && op.Adds() && !r.full && Safe(|r.slots|, c, op)
    ensures Accounts(r.Next(op), Count(|r.slots|, c, op))
  {
    var r', c' := r.Next(op), Count(|r.slots|, c, op);
    TailMoves(r, c, op);
    OccupiedAfterAdd(|r.slots|, c, op, 0);
    forall j: nat | j < |r.slots|
      ensures r'.slots[j].Live? <==> Occupied(|r.slots|, c', Offset(Origin(r', c'), j, |r.slots|))
    {
      TailPlaceOnly(r, c, j);
      OccupiedAfterAdd(|r.slots|, c, op, Offset(Origin(r, c), j, |r.slots|));
    }
  }

  lemma SameOrigin<T>(r: Ring<T>, c: Counts)
    requires Accounts(r, c) && 0 < r.count
    ensures Origin(r.PopFront(), Count<T>(|r.slots|, c, Pop)) == Origin(r, c)
    ensures SlotIndex(r.tail, c.drift, |r.slots|) == r.PopFront().End()
    ensures forall j: nat | j < |r.slots| :: j == r.head <==> Offset(Origin(r, c), j, |r.slots|) == c.removed
  {
  }

  lemma AccountsPop<T>(r: Ring<T>, c: Counts, op: Op<T>)
    requires Accounts(r, c) && op.Pop? && 0 < r.count && Safe(|r.slots|, c, op)
    ensures Accounts(r.Next(op), Count(|r.slots|, c, op))
  {
    var r', c' := r.Next(op), Count(|r.slots|, c, op);
    SameOrigin(r, c);
    OccupiedAfterPop(|r.slots|, c, op, 0);
    forall j: nat | j < |r.slots|
      ensures r'.slots[j].Live? <==> Occupied(|r.slots|, c', Offset(Origin(r', c'), j, |r.slots|))
    {
      OccupiedAfterPop(|r.slots|, c, op, Offset(Origin(r, c), j, |r.slots|));
    }
  }

  // ---------------------------------------------------------------------------------------------
  // Clearing
  // ---------------------------------------------------------------------------------------------

  /** A window slot without object, when insertions have gone into room out of step: no set of the first
      `added` places is mapped into itself by a shift of `drift`. */
  function Gap(c: Counts): nat {
    if c.drift <= c.added then c.added - c.drift else 0
  }

  lemma GapInWindow<T>(r: Ring<T>, c: Counts)
    requires Accounts(r, c) && 0 < r.count && 0 < c.drift && 0 < c.added
    ensures Gap(c) < |r.slots| && !Occupied(|r.slots|, c, Gap(c))
    ensures Offset(c.removed, Gap(c), |r.slots|) < r.count
    ensures SlotIndex(Origin(r, c), Gap(c), |r.slots|)
            == SlotIndex(r.head, Offset(c.removed, Gap(c), |r.slots|), |r.slots|)
  {
  }

  lemma WindowLiveIff<T>(r: Ring<T>, c: Counts)
    requires Accounts(r, c)
    ensures (forall k: nat | k < r.count :: r.slots[SlotIndex(r.head, k, |r.slots|)].Live?)
            <==> Safe<T>(|r.slots|, c, Clear)
  {
    if Safe<T>(|r.slots|, c, Clear) {
    } else {
      GapInWindow(r, c);
      var j := SlotIndex(Origin(r, c), Gap(c), |r.slots|);
      assert !r.slots[j].Live?;
    }
  }

  /** An object outside the window, in the same case. */
  function Leftover(capacity: nat, c: Counts): nat
    requires c.drift <= capacity
  {
    if c.added <= capacity - c.drift then capacity - c.drift else c.added
  }

  lemma LeftoverOutside<T>(r: Ring<T>, c: Counts)
    requires Accounts(r, c) && 0 < r.count && 0 < c.drift && 0 < c.added
    ensures var o := Leftover(|r.slots|, c);
            && o < |r.slots| && Occupied(|r.slots|, c, o)
            && !r.InWindow(SlotIndex(Origin(r, c), o, |r.slots|))
  {
  }

  /** All objects lie in the window exactly when a clear is safe. */
  lemma NothingOutsideIff<T>(r: Ring<T>, c: Counts)
    requires Accounts(r, c)
    ensures (forall j: nat | j < |r.slots| && r.slots[j].Live? :: r.InWindow(j)) <==> Safe<T>(|r.slots|, c, Clear)
  {
    if !Safe<T>(|r.slots|, c, Clear) {
      LeftoverOutside(r, c);
      var j := SlotIndex(Origin(r, c), Leftover(|r.slots|, c), |r.slots|);
      assert r.slots[j].Live?;
    }
  }

  lemma AccountsClear<T>(r: Ring<T>, c: Counts)
    requires Accounts(r, c) && Safe<T>(|r.slots|, c, Clear)
    ensures Accounts(r.Cleared(), START)
  {
    NothingOutsideIff(r, c);
    assert forall j: nat | j < |r.slots| :: r.Cleared().slots[j].Raw?;
  }

  // ---------------------------------------------------------------------------------------------
  // Whole runs
  // ---------------------------------------------------------------------------------------------

  lemma AccountsNext<T>(r: Ring<T>, c: Counts, op: Op<T>)
    requires Accounts(r, c) && Safe(|r.slots|, c, op)
    ensures Accounts(r.Next(op), Count(|r.slots|, c, op))
  {
    if op.Adds() && r.full {
      AccountsOverwrite(r, c, op);
    } else if op.Adds() {
      AccountsAdd(r, c, op);
    } else if op.Pop? && 0 < r.count {
      AccountsPop(r, c, op);
    } else if op.Clear? {
      AccountsClear(r, c);
    }
  }

  /** While the counts say where the objects are, they say whether the next operation is lawful. */
  lemma LawfulIffSafe<T>(r: Ring<T>, c: Counts, op: Op<T>)
    requires Accounts(r, c)
    ensures AllLawful(r.slots, Touches(r, op)) <==> Safe(|r.slots|, c, op)
  {
    if op.Adds() && r.full {
      FullIsLive(r, c);
      TwoTouches(r.slots, Destroy(r.head), Construct(r.head, op.x));
    } else if op.Adds() {
      TailRawIff(r, c, op.x);
    } else if op.Pop? && 0 < r.count {
      HeadLiveIff(r, c);
      TwoTouches(r.slots, MoveOut(r.head), Destroy(r.head));
    } else if op.Clear? {
      WindowLiveIff(r, c);
      DestructionsLawfulIff(r, 0);
      assert r.DestroyedUpTo(0) == r.slots;
    }
  }

  lemma {:induction false} RunLawfulIff<T>(r: Ring<T>, c: Counts, ops: seq<Op<T>>)
    requires Accounts(r, c)
    ensures AllLawful(r.slots, RunTouches(r, ops)) <==> ObjectsSafe(|r.slots|, c, ops)
    ensures ObjectsSafe(|r.slots|, c, ops) ==> Accounts(After(r, ops), CountAll(|r.slots|, c, ops))
    decreases |ops|
  {
    if ops != [] {
      LawfulIffSafe(r, c, ops[0]);
      TouchesAccount(r, ops[0]);
      Concatenation(r.slots, Touches(r, ops[0]), RunTouches(r.Next(ops[0]), ops[1..]));
      if Safe(|r.slots|, c, ops[0]) {
        AccountsNext(r, c, ops[0]);
        RunLawfulIff(r.Next(ops[0]), Count(|r.slots|, c, ops[0]), ops[1..]);
      }
    }
  }

  /** Every touch of a run, in step or not, meets a slot in the state it needs, exactly when the counts
      say so at every call. */
  lemma LawfulIffObjectsSafe<T>(capacity: nat, ops: seq<Op<T>>)
    requires 0 < capacity <= MAX_CAPACITY
    ensures AllLawful(New<T>(capacity).slots, RunTouches(New(capacity), ops)) <==> ObjectsSafe(capacity, START, ops)
  {
    NewAccounts<T>(capacity);
    RunLawfulIff(New(capacity), START, ops);
  }

  /** After a run that is safe so far, a clear leaves nothing behind exactly when the buffer is empty, or
      the overwrites since the last clear or the insertions since the last overwrite are a multiple of
      the capacity. */
  lemma ClearLeavesNothingByCounting<T>(capacity: nat, ops: seq<Op<T>>)
    requires 0 < capacity <= MAX_CAPACITY && ObjectsSafe(capacity, START, ops)
    ensures var r, c := After(New<T>(capacity), ops), CountAll(capacity, START, ops);
            r.Cleared().slots == New<T>(capacity).slots <==> c.size == 0 || c.drift == 0 || c.added == 0
  {
    var r, c := After(New<T>(capacity), ops), CountAll(capacity, START, ops);
    NewAccounts<T>(capacity);
    RunLawfulIff(New(capacity), START, ops);
    ClearLeavesNothingIff(r);
    NothingOutsideIff(r, c);
  }

  /** A whole life, from construction to destructor. It constructs only on raw storage and assigns, moves
      out of and destroys only objects exactly when every call and the destructor's clear are safe by
      the counts; it always has one destruction for every construction; and if it is lawful it leaves
      nothing behind. */
  lemma LifetimesLawfulIff<T>(capacity: nat, ops: seq<Op<T>>)
    requires 0 < capacity <= MAX_CAPACITY
    ensures var touches := RunTouches(New(capacity), ops) + Touches(After(New(capacity), ops), Clear);
            && (AllLawful(New(capacity).slots, touches) <==>
                  && ObjectsSafe(capacity, START, ops)
                  && Safe<T>(capacity, CountAll(capacity, START, ops), Clear))
            && Balance(touches) == 0
            && (AllLawful(New(capacity).slots, touches) ==>
                  TouchedAll(New(capacity).slots, touches) == New(capacity).slots)
  {
    var r, c := After(New<T>(capacity), ops), CountAll(capacity, START, ops);
    NewAccounts<T>(capacity);
    RunLawfulIff(New(capacity), START, ops);
    RunAccounts(New(capacity), ops);
    TouchesAccount(r, Clear);
    Concatenation(New(capacity).slots, RunTouches(New(capacity), ops), Touches(r, Clear));
    if ObjectsSafe(capacity, START, ops) {
      LawfulIffSafe(r, c, Clear);
      ClearLeavesNothingByCounting(capacity, ops);
    }
  }

  /** A run in step is safe, and so is a clear after it. */
  lemma {:induction false} InStepIsSafe<T>(capacity: nat, l: Ledger, c: Counts, ops: seq<Op<T>>)
    requires 0 < capacity && Fits(capacity, c) && PushesInStep(capacity, l, ops)
    requires c.size == l.size && c.drift == l.overwrites % capacity && (c.drift == 0 || c.added == 0)
    ensures ObjectsSafe(capacity, c, ops) && Safe<T>(capacity, CountAll(capacity, c, ops), Clear)
    decreases |ops|
  {
    if ops != [] {
      Remainder(0, 0, 0, capacity);
      NextRemainder(l.overwrites, capacity);
      InStepIsSafe(capacity, Record(capacity, l, ops[0]), Count(capacity, c, ops[0]), ops[1..]);
    }
  }

  /** A run whose insertions are in step has a lawful life and leaves nothing behind. */
  lemma LifetimeDiscipline<T>(capacity: nat, ops: seq<Op<T>>)
    requires 0 < capacity <= MAX_CAPACITY && PushesInStep(capacity, FRESH, ops)
    ensures var touches := RunTouches(New(capacity), ops) + Touches(After(New(capacity), ops), Clear);
            && AllLawful(New(capacity).slots, touches)
            && Balance(touches) == 0
            && TouchedAll(New(capacity).slots, touches) == New(capacity).slots
  {
    Remainder(0, 0, 0, capacity);
    InStepIsSafe(capacity, FRESH, START, ops);
    LifetimesLawfulIff(capacity, ops);
  }

  /** Being in step is more than the objects need. On capacity 2, after three insertions and two
      removals, two more insertions are out of step, yet construct on raw slots only and leave the ring
      full of objects, but in the wrong order. */
  lemma LawfulOutOfStep()
    ensures var first, later := [Push(1), Push(2), Push(3), Pop, Pop], [Push(4), Push(5)];
            var r, l := After(New(2), first), RecordAll(2, FRESH, first);
            && PushesInStep(2, FRESH, first) && !PushesInStep(2, l, later)
            && AllLawful(r.slots, RunTouches(r, later))
            && After(r, later).Window() == [Live(5), Live(4)]
  {
  }
}
