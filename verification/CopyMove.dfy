/** Copying and moving whole buffers. */
module CopyMove {
  import opened Indices
  import opened RingModel
  import opened BoundedQueue
  import opened LaggingQueue
  import opened Refinement

  /** The slots a copy gets: the first `count` slots of the source, at the same places. */
  function CopiedUpTo<T>(r: Ring<T>, n: nat): (slots: seq<Slot<T>>)
    requires n <= r.count <= |r.slots|
    ensures |slots| == |r.slots|
  {
    seq(|r.slots|, j requires 0 <= j < |r.slots| => if j < n then r.slots[j] else Raw)
  }

  /** A copy of `r` with the given overwrite position: zero for a copy-constructed buffer, the old
      one of the target for a copy-assigned buffer. */
  function CopyOf<T>(r: Ring<T>, position: nat): (copy: Ring<T>)
    requires r.WellFormed()
    ensures copy.WellFormed()
  {
    r.(slots := CopiedUpTo(r, r.count), justOverwrote := false, overwritePosition := position)
  }

  /** A lagging queue after copying: only what lies in the first `size` storage slots is there. */
  function Copied<T>(v: Lagging<T>): (copy: Lagging<T>)
    requires v.Valid()
    ensures copy.Valid()
  {
    Lagging(seq(|v.cells|, i requires 0 <= i < |v.cells| =>
                  if SlotIndex(v.turn, i, |v.cells|) < v.size then v.cells[i] else Raw),
            v.turn, v.size, v.lag, Unmarked)
  }

  /** The buffer a move fills: everything from `r`, except that the overwrite mark is reset by the
      constructor and kept by the assignment. */
  function MoveOf<T>(r: Ring<T>, mark: bool, position: nat): (moved: Ring<T>)
    requires r.WellFormed()
    ensures moved.WellFormed() && moved.Window() == r.Window()
  {
    r.(justOverwrote := mark, overwritePosition := position)
  }

  /** What a move leaves behind. */
  function MovedFrom<T>(r: Ring<T>): (rest: Ring<T>)
    ensures rest.WellFormed() && rest.Window() == [] && rest.slots == []
  {
    Ring([], 0, 0, 0, false, r.justOverwrote, r.overwritePosition)
  }

  /** The first `count` slots are the window. */
  predicate WindowComesFirst<T>(r: Ring<T>) {
    r.head == 0 || r.full || r.count == 0
  }

  lemma OutsideFirstSlots<T>(r: Ring<T>) returns (i: nat)
    requires r.Usable() && !WindowComesFirst(r)
    ensures i < r.count && SlotIndex(r.head, i, |r.slots|) >= r.count
  {
    i := if r.head >= r.count then 0 else r.count - r.head;
  }

  /** A copy has the elements of its source exactly when the source's window starts at slot 0, or
      the source is full or empty: then the copy holds the same items, and otherwise some element of
      the copy is storage without an object and some copied slot of the source held none. */
  lemma CopyEqualIff<T>(r: Ring<T>, items: seq<T>, position: nat)
    requires Holds(r, items)
    ensures CopyOf(r, position).Window() == r.Window() <==> WindowComesFirst(r)
    ensures (forall j: nat | j < r.count :: r.slots[j].Live?) <==> WindowComesFirst(r)
    ensures WindowComesFirst(r) ==> Holds(CopyOf(r, position), items)
  {
    var copy := CopyOf(r, position);
    if WindowComesFirst(r) {
      forall i: nat | i < r.count ensures copy.Window()[i] == r.Window()[i] {
        assert SlotIndex(r.head, i, |r.slots|) < r.count;
      }
      assert copy.Window() == r.Window();
      forall j: nat | j < |r.slots| ensures r.InWindow(j) <==> j < r.count {
      }
    } else {
      var i := OutsideFirstSlots(r);
      HoldsAt(r, items, i);
      assert copy.Window()[i] == Raw != r.Window()[i];
      var j := if r.head > r.count then r.count - 1 else r.head - 1;
      assert !r.InWindow(j);
    }
  }

  /** Of any source, drifted or not: a copy has its source's window exactly when no object of that window
      lies beyond the first `count` slots. */
  lemma CopyEqualExactly<T>(r: Ring<T>, position: nat)
    requires r.Usable()
    ensures CopyOf(r, position).Window() == r.Window() <==>
            forall j: nat | r.count <= j < |r.slots| && r.slots[j].Live? :: !r.InWindow(j)
  {
    var copy := CopyOf(r, position);
    if j: nat :| r.count <= j < |r.slots| && r.slots[j].Live? && r.InWindow(j) {
      var i := Offset(r.head, j, |r.slots|);
      assert copy.Window()[i] == Raw != r.Window()[i];
    } else {
      forall i: nat | i < r.count ensures copy.Window()[i] == r.Window()[i] {
        assert r.InWindow(SlotIndex(r.head, i, |r.slots|));
      }
      assert copy.Window() == r.Window();
    }
  }

  /** Removals and overwrites since the last clear: how often the head has moved. */
  function HeadMoves<T>(capacity: nat, l: Ledger, moves: nat, ops: seq<Op<T>>): nat
    decreases |ops|
  {
    if ops == [] then moves
    else HeadMoves(capacity, Record(capacity, l, ops[0]), CountMove(capacity, l, moves, ops[0]), ops[1..])
  }

  function CountMove<T>(capacity: nat, l: Ledger, moves: nat, op: Op<T>): nat {
    if op.Clear? then 0
    else if (op.Adds() && l.size == capacity) || (op.Pop? && 0 < l.size) then moves + 1
    else moves
  }

  lemma {:induction false} HeadByCounting<T>(r: Ring<T>, l: Ledger, moves: nat, ops: seq<Op<T>>)
    requires Tracks(r, l) && r.head == moves % |r.slots|
    ensures After(r, ops).head == HeadMoves(|r.slots|, l, moves, ops) % |r.slots|
    decreases |ops|
  {
    if ops != [] {
      Remainder(0, 0, 0, |r.slots|);
      NextRemainder(moves, |r.slots|);
      TracksNext(r, l, ops[0]);
      HeadByCounting(r.Next(ops[0]), Record(|r.slots|, l, ops[0]), CountMove(|r.slots|, l, moves, ops[0]), ops[1..]);
    }
  }

  /** When a copy has its source's elements, after a run in step, by what a caller can count. */
  lemma CopyEqualByCounting<T>(capacity: nat, ops: seq<Op<T>>, position: nat)
    requires 0 < capacity <= MAX_CAPACITY && PushesInStep(capacity, FRESH, ops)
    ensures var r, l := After(New(capacity), ops), RecordAll(capacity, FRESH, ops);
            CopyOf(r, position).Window() == r.Window() <==>
            HeadMoves(capacity, FRESH, 0, ops) % capacity == 0 || l.size == capacity || l.size == 0
  {
    NewTracks<T>(capacity);
    NewHolds<T>(capacity);
    Remainder(0, 0, 0, capacity);
    RunHolds(New(capacity), FRESH, [], ops);
    TracksRun(New(capacity), FRESH, ops);
    HeadByCounting(New(capacity), FRESH, 0, ops);
    CopyEqualIff(After(New(capacity), ops), ItemsAfter(capacity, [], ops), position);
  }

  /** A copy of any source, drifted or not, goes on as the copied lagging queue: every later call returns
      what it returns there. */
  lemma CopyIsLagging<T>(r: Ring<T>, position: nat, ops: seq<Op<T>>)
    requires r.Usable()
    ensures View(CopyOf(r, position)) == Copied(View(r))
    ensures Answers(CopyOf(r, position), ops) == LaggingAnswers(Copied(View(r)), ops)
  {
    assert View(CopyOf(r, position)).cells == Copied(View(r)).cells;
    RunIsLagging(CopyOf(r, position), ops);
  }

  /** A moved buffer goes on as its source's lagging queue, under the mark it was given. */
  lemma MoveIsLagging<T>(r: Ring<T>, mark: bool, position: nat, ops: seq<Op<T>>)
    requires r.Usable()
    ensures Answers(MoveOf(r, mark, position), ops)
            == LaggingAnswers(View(r).(mark := if mark then Marked(position) else Unmarked), ops)
  {
    assert View(MoveOf(r, mark, position)) == View(r).(mark := if mark then Marked(position) else Unmarked);
    RunIsLagging(MoveOf(r, mark, position), ops);
  }

  /** A copy obeys the drift law of its source, but forgets that the newest element came in by an
      overwrite: so its `back` reads the newest slot exactly when the source was in step. */
  lemma CopyBackIff<T>(r: Ring<T>, l: Ledger, position: nat)
    requires Tracks(r, l) && 0 < r.count
    ensures var copy := CopyOf(r, position);
            && Tracks(copy, Ledger(l.size, l.overwrites, false))
            && (copy.BackIndex() == SlotIndex(copy.head, copy.count - 1, |copy.slots|) <==> InStep(|r.slots|, l))
  {
  }

  /** A copy that has its source's elements behaves from then on like the bounded queue, by the source's
      count of overwrites: as long as insertions are in step, call by call and in what it holds. */
  lemma CopyRefines<T>(r: Ring<T>, l: Ledger, items: seq<T>, position: nat, ops: seq<Op<T>>)
    requires Tracks(r, l) && Holds(r, items) && WindowComesFirst(r)
    ensures |items| <= |r.slots|
    ensures var copied := Ledger(l.size, l.overwrites, false);
            && (PushesInStep(|r.slots|, copied, ops) ==>
                  Holds(After(CopyOf(r, position), ops), ItemsAfter(|r.slots|, items, ops)))
            && forall i: nat | i < |ops| && PushesInStep(|r.slots|, copied, ops[..i])
                               && BackInStep(|r.slots|, RecordAll(|r.slots|, copied, ops[..i]), ops[i]) ::
                 Answers(CopyOf(r, position), ops)[i] == ItemsAnswers(|r.slots|, items, ops)[i]
  {
    var copy, copied := CopyOf(r, position), Ledger(l.size, l.overwrites, false);
    assert |items| == |r.Window()| == r.count;
    CopyEqualIff(r, items, position);
    assert Tracks(copy, copied);
    forall i: nat | i < |ops| && PushesInStep(|r.slots|, copied, ops[..i])
                    && BackInStep(|r.slots|, RecordAll(|r.slots|, copied, ops[..i]), ops[i])
      ensures Answers(copy, ops)[i] == ItemsAnswers(|r.slots|, items, ops)[i]
    {
      AnswerAtAgrees(copy, copied, items, ops, i);
    }
    if PushesInStep(|r.slots|, copied, ops) {
      RunHolds(copy, copied, items, ops);
    }
  }

  /** A moved buffer holds the same items. It obeys the same drift law, with the mark it was given,
      exactly when that mark is off, or the ring is empty, or the ring is full and the mark names its
      newest slot. A move constructor turns the mark off. */
  lemma MoveHoldsIff<T>(r: Ring<T>, l: Ledger, items: seq<T>, mark: bool, position: nat)
    requires Tracks(r, l) && Holds(r, items)
    ensures Holds(MoveOf(r, mark, position), items)
    ensures Tracks(MoveOf(r, mark, position), Ledger(l.size, l.overwrites, mark)) <==>
            (mark && 0 < r.count ==> r.full && position == SlotIndex(r.head, r.count - 1, |r.slots|))
  {
  }

  /** After a move `back` reads the newest slot exactly when the kept mark names it, or there is no mark
      and the source was in step. */
  lemma MoveBackIff<T>(r: Ring<T>, l: Ledger, mark: bool, position: nat)
    requires Tracks(r, l) && 0 < r.count
    ensures MoveOf(r, mark, position).BackIndex() == SlotIndex(r.head, r.count - 1, |r.slots|) <==>
            if mark then position == SlotIndex(r.head, r.count - 1, |r.slots|) else InStep(|r.slots|, l)
  {
  }

  /** Move assignment from a buffer of capacity 1 to one of capacity 3 that has just overwritten its
      last slot: the kept mark names a slot the buffer no longer has. */
  lemma MoveAssignWitness()
    ensures var target := After(New(3), [Push(1), Push(2), Push(3), Push(4), Push(5), Push(6)]);
            var moved := MoveOf(New(1).PushBack(7), target.justOverwrote, target.overwritePosition);
            moved.Window() == [Live(7)] && moved.BackIndex() >= |moved.slots| && moved.Ask(Back) == Undefined
  {
  }

  /** A drifted source of capacity 3 whose window is one slot without object: the copy's is too, though
      the window does not come first. */
  lemma DriftedCopyWitness()
    ensures var r := After(New(3), [Push(1), Push(2), Push(3), Push(4), Pop, Push(5), Pop, Pop]);
            !WindowComesFirst(r) && r.Window() == [Raw] == CopyOf(r, 0).Window()
  {
  }

  /** A source of capacity 3 that has lost its first element: its copy has lost an element and gained
      a slot without object. */
  lemma CopyWitness()
    ensures var r := After(New(3), [Push(1), Push(2), Pop]);
            r.Window() == [Live(2)] && CopyOf(r, 0).Window() == [Raw]
  {
  }
}
