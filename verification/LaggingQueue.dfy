/** What the buffer is on every run, drifted or not: a queue whose insertions land behind its end.

    The reference has no head and no tail. It is a row of places, the oldest element's first; what the
    row starts with, how far insertions lag behind the elements' end, and what the overwrite mark
    names is all that the code's indices amount to. */
module LaggingQueue {
  import opened Indices
  import opened RingModel
  import opened Refinement

  /** The overwrite mark: the storage slot that `back` reads instead of the latest insertion. */
  datatype Mark = Unmarked | Marked(slot: nat)

  /** The first `size` of the `cells` are the elements. An insertion with room goes `lag` places before
      their end, counting round. The first cell is storage slot `turn`. */
  datatype Lagging<+T> = Lagging(cells: seq<Slot<T>>, turn: nat, size: nat, lag: nat, mark: Mark)
  {
    predicate Valid() {
      size <= |cells| && lag < |cells| && turn < |cells|
    }

    /** The cell `n` places after the first, minus the lag, counting round. */
    function Behind(n: nat): (place: nat)
      requires Valid() && n < |cells|
      ensures place < |cells|
    {
      if lag <= n then n - lag else n + |cells| - lag
    }

    /** All places move up by one, and a new one follows. */
    function Shifted(last: Slot<T>): (next: Lagging<T>)
      requires Valid()
      ensures next.Valid()
    {
      this.(cells := cells[1..] + [last], turn := NextIndex(turn, |cells|))
    }

    function Inserted(x: T): (next: Lagging<T>)
      requires Valid()
      ensures next.Valid()
    {
      if size == |cells| then Shifted(Live(x)).(lag := NextIndex(lag, |cells|), mark := Marked(turn))
      else this.(cells := cells[Behind(size) := Live(x)], size := size + 1, mark := Unmarked)
    }

    /** The elements are gone, and the row starts with storage slot 0 again. */
    function Emptied(): (next: Lagging<T>)
      requires Valid()
      ensures next.Valid() && |next.cells| == |cells|
    {
      var rest := seq(size, _ => Raw) + cells[size..];
      var before := |cells| - turn;
      Lagging(rest[before..] + rest[..before], 0, 0, 0, mark)
    }

    function Next(op: Op<T>): (next: Lagging<T>)
      requires Valid()
      ensures next.Valid()
    {
      match op
      case Push(x) => Inserted(x)
      case Emplace(x) => Inserted(x)
      case Pop => if size == 0 then this else Shifted(Raw).(size := size - 1, mark := Unmarked)
      case Clear => Emptied()
      case Read(_) => this
    }

    /** What reading a cell gives. */
    function Reading(place: nat): Result<T>
      requires place < |cells|
    {
      if cells[place].Live? then Item(cells[place].v) else Undefined
    }

    function ReadBack(): Result<T>
      requires Valid() && 0 < size
    {
      match mark
      case Unmarked => Reading(Behind(size - 1))
      case Marked(slot) => if slot < |cells| then Reading(Offset(turn, slot, |cells|)) else Undefined
    }

    function Ask(q: Query): Result<T>
      requires Valid()
    {
      match q
      case Size => Number(size)
      case Capacity => Number(|cells|)
      case Empty => Truth(size == 0)
      case Full => Truth(size == |cells|)
      case Available => Number(|cells| - size)
      case Front => if size == 0 then Throws(EmptyBuffer) else Reading(0)
      case Back => if size == 0 then Throws(EmptyBuffer) else ReadBack()
      case At(i) => if size <= i then Throws(OutOfRange) else Reading(i)
    }

    function Answer(op: Op<T>): Result<T>
      requires Valid()
    {
      match op
      case Push(_) => Done
      case Emplace(_) => Done
      case Pop => if size == 0 then Throws(EmptyBuffer) else Reading(0)
      case Clear => Done
      case Read(q) => Ask(q)
    }
  }

  /** A ring as a lagging queue. */
  function View<T>(r: Ring<T>): (v: Lagging<T>)
    requires r.Usable()
    ensures v.Valid() && |v.cells| == |r.slots|
  {
    Lagging(seq(|r.slots|, i requires 0 <= i < |r.slots| => r.slots[SlotIndex(r.head, i, |r.slots|)]),
            r.head, r.count, Offset(r.tail, r.End(), |r.slots|),
            if r.justOverwrote then Marked(r.overwritePosition) else Unmarked)
  }

  lemma NewIsEmpty<T>(capacity: nat)
    requires 0 < capacity <= MAX_CAPACITY
    ensures View(New<T>(capacity)) == Lagging(seq(capacity, _ => Raw), 0, 0, 0, Unmarked)
  {
  }

  /** The lag is the overwrites since the last clear, modulo the capacity. */
  lemma LagIsOverwrites<T>(r: Ring<T>, l: Ledger)
    requires Tracks(r, l)
    ensures View(r).lag == l.overwrites % |r.slots|
  {
  }

  lemma ViewOverwrite<T>(r: Ring<T>, x: T)
    requires r.Usable() && r.full
    ensures View(r.PushBack(x)) == View(r).Inserted(x)
  {
    assert View(r.PushBack(x)).cells == View(r).Inserted(x).cells;
  }

  lemma TailBehind<T>(r: Ring<T>)
    requires r.Usable() && !r.full
    ensures Offset(r.head, r.tail, |r.slots|) == View(r).Behind(r.count)
    ensures forall x: T :: View(r.PushBack(x)).lag == View(r).lag
  {
  }

  lemma ViewInsert<T>(r: Ring<T>, x: T)
    requires r.Usable() && !r.full
    ensures View(r.PushBack(x)) == View(r).Inserted(x)
  {
    var place := View(r).Behind(r.count);
    TailBehind(r);
    assert forall i: nat | i < |r.slots| :: SlotIndex(r.head, i, |r.slots|) == r.tail <==> i == place;
    assert View(r.PushBack(x)).cells == View(r).cells[place := Live(x)];
  }

  lemma ViewPop<T>(r: Ring<T>)
    requires r.Usable() && 0 < r.count
    ensures View(r.PopFront()) == View(r).Next(Pop)
  {
    assert View(r.PopFront()).cells == View(r).Next(Pop).cells;
  }

  lemma ViewClear<T>(r: Ring<T>)
    requires r.Usable()
    ensures View(r.Cleared()) == View(r).Emptied()
  {
    assert View(r.Cleared()).cells == View(r).Emptied().cells;
  }

  /** Every operation on every usable ring does to its view what it does to a lagging queue. */
  lemma ViewNext<T>(r: Ring<T>, op: Op<T>)
    requires r.Usable()
    ensures View(r.Next(op)) == View(r).Next(op)
  {
    if op.Adds() {
      NextOfAdd(r, op);
      if r.full {
        ViewOverwrite(r, op.x);
      } else {
        ViewInsert(r, op.x);
      }
    } else if op.Pop? && 0 < r.count {
      ViewPop(r);
    } else if op.Clear? {
      ViewClear(r);
    }
  }

  lemma ViewBack<T>(r: Ring<T>)
    requires r.Usable() && 0 < r.count
    ensures r.Ask(Back) == View(r).ReadBack()
  {
  }

  /** And it returns what it returns there. */
  lemma ViewAnswer<T>(r: Ring<T>, op: Op<T>)
    requires r.Usable()
    ensures r.Answer(op) == View(r).Answer(op)
  {
    if op == Read(Back) && 0 < r.count {
      ViewBack(r);
    }
  }

  // ---------------------------------------------------------------------------------------------
  // Whole runs
  // ---------------------------------------------------------------------------------------------

  function LaggingAfter<T>(v: Lagging<T>, ops: seq<Op<T>>): (end: Lagging<T>)
    requires v.Valid()
    ensures end.Valid()
    decreases |ops|
  {
    if ops == [] then v else LaggingAfter(v.Next(ops[0]), ops[1..])
  }

  function LaggingAnswers<T>(v: Lagging<T>, ops: seq<Op<T>>): (answers: seq<Result<T>>)
    requires v.Valid()
    ensures |answers| == |ops|
    decreases |ops|
  {
    if ops == [] then [] else [v.Answer(ops[0])] + LaggingAnswers(v.Next(ops[0]), ops[1..])
  }

  lemma {:induction false} RunIsLagging<T>(r: Ring<T>, ops: seq<Op<T>>)
    requires r.Usable()
    ensures View(After(r, ops)) == LaggingAfter(View(r), ops)
    ensures Answers(r, ops) == LaggingAnswers(View(r), ops)
    decreases |ops|
  {
    if ops != [] {
      ViewNext(r, ops[0]);
      ViewAnswer(r, ops[0]);
      RunIsLagging(r.Next(ops[0]), ops[1..]);
    }
  }

  /** The buffer is the lagging queue: on every run at all, in step or not, every call returns what it
      returns there, and every storage slot ends up as it does there. */
  lemma BufferIsLaggingQueue<T>(capacity: nat, ops: seq<Op<T>>)
    requires 0 < capacity <= MAX_CAPACITY
    ensures var empty := Lagging(seq(capacity, _ => Raw), 0, 0, 0, Unmarked);
            && Answers(New(capacity), ops) == LaggingAnswers(empty, ops)
            && View(After(New(capacity), ops)) == LaggingAfter(empty, ops)
  {
    NewIsEmpty<T>(capacity);
    RunIsLagging(New(capacity), ops);
  }

  // ---------------------------------------------------------------------------------------------
  // What the elements become
  // ---------------------------------------------------------------------------------------------

  /** An insertion into a full ring, whatever its slots hold: every element moves up by one, the oldest
      is gone, and the last one and `back` are the new value. */
  lemma OverwriteMovesUp<T>(r: Ring<T>, op: Op<T>)
    requires r.Usable() && op.Adds() && r.full
    ensures var r' := r.Next(op);
            && r'.count == r.count
            && (forall i: nat | i + 1 < r.count :: r'.Ask(At(i)) == r.Ask(At(i + 1)))
            && r'.Ask(At(r.count - 1)) == r'.Ask(Back) == Item(op.x)
  {
  }

  /** An insertion into a ring with room, whatever its slots hold: the new value goes `lag` places behind
      the place after the last element, counting round, and `back` finds it; every other element stays,
      and the count grows to take in the place after the last. */
  lemma InsertGoesBehind<T>(r: Ring<T>, op: Op<T>)
    requires r.Usable() && op.Adds() && !r.full
    ensures var r', place := r.Next(op), View(r).Behind(r.count);
            && r'.count == r.count + 1
            && r'.Ask(Back) == Item(op.x)
            && (place <= r.count ==> r'.Ask(At(place)) == Item(op.x))
            && (forall i: nat | i < r.count && i != place :: r'.Ask(At(i)) == r.Ask(At(i)))
            && (r.count != place ==> r'.Ask(At(r.count)) == r.Peek(r.End()))
  {
    NextOfAdd(r, op);
    TailBehind(r);
  }

  /** Where `back` reads in every reachable buffer with elements: the newest place after an overwrite;
      else as many places before the newest as there were overwrites since the last clear, modulo the
      capacity, counting round: an older element, or a slot outside the window. */
  lemma BackReadsBehind<T>(capacity: nat, ops: seq<Op<T>>)
    requires 0 < capacity <= MAX_CAPACITY && 0 < After(New<T>(capacity), ops).count
    ensures var r, l := After(New<T>(capacity), ops), RecordAll(capacity, FRESH, ops);
            var d := l.overwrites % capacity;
            && (l.newestOverwrote ==> r.Ask(Back) == r.Ask(At(r.count - 1)))
            && (!l.newestOverwrote && d < r.count ==> r.Ask(Back) == r.Ask(At(r.count - 1 - d)))
            && (!l.newestOverwrote && r.count <= d ==>
                  && r.Ask(Back) == r.Peek(SlotIndex(r.head, r.count + capacity - 1 - d, capacity))
                  && !r.InWindow(SlotIndex(r.head, r.count + capacity - 1 - d, capacity)))
  {
    NewTracks<T>(capacity);
    TracksRun(New<T>(capacity), FRESH, ops);
    BackReads(After(New<T>(capacity), ops), RecordAll(capacity, FRESH, ops));
  }

  lemma BackReads<T>(r: Ring<T>, l: Ledger)
    requires Tracks(r, l) && 0 < r.count
    ensures var d := l.overwrites % |r.slots|;
            && (l.newestOverwrote ==> r.Ask(Back) == r.Ask(At(r.count - 1)))
            && (!l.newestOverwrote && d < r.count ==> r.Ask(Back) == r.Ask(At(r.count - 1 - d)))
            && (!l.newestOverwrote && r.count <= d ==>
                  && r.Ask(Back) == r.Peek(SlotIndex(r.head, r.count + |r.slots| - 1 - d, |r.slots|))
                  && !r.InWindow(SlotIndex(r.head, r.count + |r.slots| - 1 - d, |r.slots|)))
  {
    BackLags(r, l);
  }

  lemma BackLags<T>(r: Ring<T>, l: Ledger)
    requires Tracks(r, l) && 0 < r.count
    ensures var d := l.overwrites % |r.slots|;
            && r.BackIndex() < |r.slots|
            && (l.newestOverwrote ==> r.BackIndex() == SlotIndex(r.head, r.count - 1, |r.slots|))
            && (!l.newestOverwrote ==>
                  SlotIndex(r.BackIndex(), d, |r.slots|) == SlotIndex(r.head, r.count - 1, |r.slots|))
            && (!l.newestOverwrote && d < r.count ==> r.BackIndex() == SlotIndex(r.head, r.count - 1 - d, |r.slots|))
            && (!l.newestOverwrote && r.count <= d ==>
                  r.BackIndex() == SlotIndex(r.head, r.count + |r.slots| - 1 - d, |r.slots|))
  {
  }
}
