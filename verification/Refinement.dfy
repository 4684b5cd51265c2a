/** How far the ring is a bounded queue: the drift law, and the exact runs on which window and
    results agree with the reference. */
module Refinement {
  import opened Indices
  import opened RingModel
  import opened BoundedQueue

  /** What a caller can know by counting its own calls: the size, the overwrites since the last
      clear, and whether the newest element came in by an overwrite. */
  datatype Ledger = Ledger(size: nat, overwrites: nat, newestOverwrote: bool)

  const FRESH: Ledger := Ledger(0, 0, false)

  function Record<T>(capacity: nat, l: Ledger, op: Op<T>): Ledger {
    match op
    case Push(_) => RecordAdd(capacity, l)
    case Emplace(_) => RecordAdd(capacity, l)
    case Pop => if l.size == 0 then l else Ledger(l.size - 1, l.overwrites, false)
    case Clear => FRESH
    case Read(_) => l
  }

  function RecordAdd(capacity: nat, l: Ledger): Ledger {
    if l.size == capacity then Ledger(l.size, l.overwrites + 1, true) else Ledger(l.size + 1, l.overwrites, false)
  }

  function RecordAll<T>(capacity: nat, l: Ledger, ops: seq<Op<T>>): Ledger
    decreases |ops|
  {
    if ops == [] then l else RecordAll(capacity, Record(capacity, l, ops[0]), ops[1..])
  }

  /** The capacity divides the number of overwrites since the last clear. */
  predicate InStep(capacity: nat, l: Ledger)
    requires 0 < capacity
  {
    l.overwrites % capacity == 0
  }

  /** Every insertion of the run into a buffer with room happens in step. */
  predicate PushesInStep<T>(capacity: nat, l: Ledger, ops: seq<Op<T>>)
    requires 0 < capacity
    decreases |ops|
  {
    ops != [] ==>
      && (ops[0].Adds() && l.size < capacity ==> InStep(capacity, l))
      && PushesInStep(capacity, Record(capacity, l, ops[0]), ops[1..])
  }

  /** A `back` on a non-empty buffer follows an overwrite or happens in step; other calls always are. */
  predicate BackInStep<T(==)>(capacity: nat, l: Ledger, op: Op<T>)
    requires 0 < capacity
  {
    op == Read(Back) && 0 < l.size ==> l.newestOverwrote || InStep(capacity, l)
  }

  // ---------------------------------------------------------------------------------------------
  // The drift law
  // ---------------------------------------------------------------------------------------------

  /** What every run of insertions, removals, clears and reads keeps, in step or not. */
  predicate Tracks<T>(r: Ring<T>, l: Ledger) {
    && r.Usable()
    && r.count == l.size
    && SlotIndex(r.tail, l.overwrites % |r.slots|, |r.slots|) == r.End()
    && (0 < r.count ==> r.justOverwrote == l.newestOverwrote)
    && (0 < r.count && r.justOverwrote ==>
          r.full && r.overwritePosition < |r.slots| && NextIndex(r.overwritePosition, |r.slots|) == r.head)
  }

  /** Inserting by copy, move or in-place construction leaves the same state. */
  lemma EmplaceIsPush<T>(r: Ring<T>, x: T)
    requires r.Usable()
    ensures r.EmplaceBack(x) == r.PushBack(x)
  {
  }

  lemma NextOfAdd<T>(r: Ring<T>, op: Op<T>)
    requires r.Usable() && op.Adds()
    ensures r.Next(op) == r.PushBack(op.x)
  {
  }

  lemma TracksNext<T>(r: Ring<T>, l: Ledger, op: Op<T>)
    requires Tracks(r, l)
    ensures Tracks(r.Next(op), Record(|r.slots|, l, op))
  {
    if op.Adds() {
      NextOfAdd(r, op);
      TracksAdd(r, l, op.x);
    } else {
      TracksRemoval(r, l, op);
    }
  }

  lemma TracksAdd<T>(r: Ring<T>, l: Ledger, x: T)
    requires Tracks(r, l)
    ensures Tracks(r.PushBack(x), RecordAdd(|r.slots|, l))
  {
    NextRemainder(l.overwrites, |r.slots|);
  }

  lemma TracksRemoval<T>(r: Ring<T>, l: Ledger, op: Op<T>)
    requires Tracks(r, l) && !op.Adds()
    ensures Tracks(r.Next(op), Record(|r.slots|, l, op))
  {
    if op.Clear? {
      Remainder(0, 0, 0, |r.slots|);
    } else if op.Pop? && 0 < r.count {
      TracksPop(r, l);
    }
  }

  /** Head and size move together, so the window's end stays. */
  lemma TracksPop<T>(r: Ring<T>, l: Ledger)
    requires Tracks(r, l) && 0 < r.count
    ensures Tracks(r.PopFront(), Ledger(l.size - 1, l.overwrites, false))
  {
    assert r.PopFront().End() == r.End();
  }

  lemma {:induction false} TracksRun<T>(r: Ring<T>, l: Ledger, ops: seq<Op<T>>)
    requires Tracks(r, l)
    ensures Tracks(After(r, ops), RecordAll(|r.slots|, l, ops))
    decreases |ops|
  {
    if ops != [] {
      TracksNext(r, l, ops[0]);
      TracksRun(r.Next(ops[0]), Record(|r.slots|, l, ops[0]), ops[1..]);
    }
  }

  lemma NewTracks<T>(capacity: nat)
    requires 0 < capacity <= MAX_CAPACITY
    ensures Tracks(New<T>(capacity), FRESH)
  {
  }

  /** In every reachable state: all indices are below the capacity, full means the count is the
      capacity, the free slots are the rest, and the tail lags behind the end of the window by the
      number of overwrites since the last clear. */
  lemma DriftLaw<T>(capacity: nat, ops: seq<Op<T>>)
    requires 0 < capacity <= MAX_CAPACITY
    ensures var r, l := After(New<T>(capacity), ops), RecordAll(capacity, FRESH, ops);
            && r.head < capacity && r.tail < capacity && r.overwritePosition < capacity
            && r.count == l.size <= capacity && (r.full <==> r.count == capacity)
            && r.Ask(Available) == Number(capacity - r.count)
            && (r.tail + l.overwrites) % capacity == (r.head + r.count) % capacity
            && (r.Aligned() <==> l.overwrites % capacity == 0)
  {
    var r, l := After(New<T>(capacity), ops), RecordAll(capacity, FRESH, ops);
    NewTracks<T>(capacity);
    TracksRun(New<T>(capacity), FRESH, ops);
    RemainderOfSum(l.overwrites, r.tail, capacity);
    SlotIndexIsMachine(r.tail, l.overwrites % capacity, capacity);
    SlotIndexIsMachine(r.head, r.count, capacity);
    AlignedIffInStep(r, l);
  }

  lemma AlignedIffInStep<T>(r: Ring<T>, l: Ledger)
    requires Tracks(r, l)
    ensures r.Aligned() <==> InStep(|r.slots|, l)
  {
  }

  /** `back` reads the newest slot of a non-empty reachable buffer exactly when the newest element
      came in by an overwrite or the overwrites since the last clear are a multiple of the
      capacity. */
  lemma BackReadsNewestIff<T>(capacity: nat, ops: seq<Op<T>>)
    requires 0 < capacity <= MAX_CAPACITY
    requires 0 < After(New<T>(capacity), ops).count
    ensures var r, l := After(New<T>(capacity), ops), RecordAll(capacity, FRESH, ops);
            r.BackIndex() == SlotIndex(r.head, r.count - 1, capacity)
            <==> l.newestOverwrote || InStep(capacity, l)
  {
    NewTracks<T>(capacity);
    TracksRun(New<T>(capacity), FRESH, ops);
    BackIndexIff(After(New<T>(capacity), ops), RecordAll(capacity, FRESH, ops));
  }

  lemma BackIndexIff<T>(r: Ring<T>, l: Ledger)
    requires Tracks(r, l) && 0 < r.count
    ensures r.BackIndex() == SlotIndex(r.head, r.count - 1, |r.slots|)
            <==> l.newestOverwrote || InStep(|r.slots|, l)
  {
  }

  // ---------------------------------------------------------------------------------------------
  // One step
  // ---------------------------------------------------------------------------------------------

  /** The ring holds exactly `items`: live slots are the window, and the window is the items. */
  ghost predicate Holds<T>(r: Ring<T>, items: seq<T>) {
    && r.Usable()
    && r.Exact()
    && r.Window() == Lives(items)
  }

  lemma HoldsAt<T>(r: Ring<T>, items: seq<T>, i: nat)
    requires Holds(r, items) && i < r.count
    ensures |items| == r.count && r.slots[SlotIndex(r.head, i, |r.slots|)] == Live(items[i])
  {
    assert r.Window()[i] == Lives(items)[i];
  }

  lemma NewHolds<T>(capacity: nat)
    requires 0 < capacity <= MAX_CAPACITY
    ensures Holds(New<T>(capacity), [])
  {
  }

  /** An insertion into a full ring slides the window by one. */
  lemma OverwriteSlides<T>(r: Ring<T>, items: seq<T>, op: Op<T>)
    requires Holds(r, items) && op.Adds() && r.full
    ensures Holds(r.Next(op), Add(|r.slots|, items, op.x))
  {
    NextOfAdd(r, op);
    assert |items| == |r.Window()| == |r.slots|;
    OverwriteWindow(r, items, op.x);
  }

  lemma OverwriteWindow<T>(r: Ring<T>, items: seq<T>, x: T)
    requires Holds(r, items) && r.full && |items| == |r.slots|
    ensures r.PushBack(x).Window() == Lives(items[1..] + [x])
  {
    var r' := r.PushBack(x);
    forall i: nat | i < |r.slots| ensures r'.Window()[i] == Lives(items[1..] + [x])[i] {
      if i + 1 < |r.slots| {
        HoldsAt(r, items, i + 1);
      }
    }
  }

  /** An insertion into a ring with room appends exactly when the tail is at the window's end:
      otherwise the new element lands elsewhere and the window ends in a slot that holds nothing. */
  lemma AppendsIffAligned<T>(r: Ring<T>, items: seq<T>, op: Op<T>)
    requires Holds(r, items) && op.Adds() && !r.full
    ensures r.Aligned() ==> Holds(r.Next(op), items + [op.x])
    ensures !r.Aligned() ==> r.Next(op).Window()[r.count] == Raw
    ensures r.Next(op).Window() == Lives(Add(|r.slots|, items, op.x)) <==> r.Aligned()
  {
    var r' := r.Next(op);
    NextOfAdd(r, op);
    assert |items| == |r.Window()| == r.count;
    assert Offset(r.head, r.End(), |r.slots|) == r.count;
    if r.Aligned() {
      forall i: nat | i < r'.count ensures r'.Window()[i] == Lives(items + [op.x])[i] {
        if i < r.count {
          HoldsAt(r, items, i);
        }
      }
      assert r'.Window() == Lives(items + [op.x]);
    } else {
      assert r'.Window()[r.count] == r.slots[r.End()] == Raw;
      assert Lives(items + [op.x])[r.count] == Live(op.x);
    }
  }

  lemma RemovalKeeps<T>(r: Ring<T>, items: seq<T>, op: Op<T>)
    requires Holds(r, items) && !op.Adds()
    ensures Holds(r.Next(op), NextItems(|r.slots|, items, op))
  {
    var r', items' := r.Next(op), NextItems(|r.slots|, items, op);
    assert |items| == |r.Window()| == r.count;
    if op.Pop? && 0 < r.count {
      assert Offset(r.head, r.head, |r.slots|) == 0;
      forall i: nat | i < r'.count ensures r'.Window()[i] == Lives(items')[i] {
        HoldsAt(r, items, i + 1);
      }
      assert r'.Window() == Lives(items');
    }
  }

  lemma PeekHeld<T>(r: Ring<T>, items: seq<T>, i: nat)
    requires Holds(r, items) && i < r.count
    ensures |items| == r.count && r.Peek(SlotIndex(r.head, i, |r.slots|)) == Item(items[i])
  {
    HoldsAt(r, items, i);
  }

  /** Reads agree with the reference on every state that holds its items; for `back` the read slot
      must be the newest one. */
  lemma AskAgrees<T>(r: Ring<T>, l: Ledger, items: seq<T>, q: Query)
    requires Tracks(r, l) && Holds(r, items)
    requires q == Back && 0 < l.size ==> l.newestOverwrote || InStep(|r.slots|, l)
    ensures |items| == r.count && r.Ask(q) == AskItems(|r.slots|, items, q)
  {
    assert |items| == |r.Window()| == r.count;
    if q == Front && 0 < r.count {
      PeekHeld(r, items, 0);
    } else if q == Back && 0 < r.count {
      PeekHeld(r, items, r.count - 1);
      BackIndexIff(r, l);
    } else if q.At? && q.index < r.count {
      PeekHeld(r, items, q.index);
    }
  }

  lemma AnswerAgrees<T>(r: Ring<T>, l: Ledger, items: seq<T>, op: Op<T>)
    requires Tracks(r, l) && Holds(r, items)
    requires BackInStep(|r.slots|, l, op)
    ensures |items| == r.count && r.Answer(op) == AnswerItems(|r.slots|, items, op)
  {
    AskAgrees(r, l, items, if op.Read? then op.q else Front);
  }

  // ---------------------------------------------------------------------------------------------
  // Whole runs
  // ---------------------------------------------------------------------------------------------

  /** At every point of the run the window is what the reference holds. */
  predicate AgreesThroughout<T(==)>(r: Ring<T>, items: seq<T>, ops: seq<Op<T>>)
    requires r.Usable() && |items| <= |r.slots|
    decreases |ops|
  {
    && r.Window() == Lives(items)
    && (ops != [] ==>
          AgreesThroughout(r.Next(ops[0]), NextItems(|r.slots|, items, ops[0]), ops[1..]))
  }

  lemma {:induction false} AgreesIff<T>(r: Ring<T>, l: Ledger, items: seq<T>, ops: seq<Op<T>>)
    requires Tracks(r, l) && Holds(r, items) && |items| <= |r.slots|
    ensures AgreesThroughout(r, items, ops) <==> PushesInStep(|r.slots|, l, ops)
    decreases |ops|
  {
    if ops != [] {
      var op := ops[0];
      TracksNext(r, l, op);
      AlignedIffInStep(r, l);
      assert |items| == |r.Window()| == r.count;
      if op.Adds() && !r.full {
        AppendsIffAligned(r, items, op);
      } else if op.Adds() {
        OverwriteSlides(r, items, op);
      } else {
        RemovalKeeps(r, items, op);
      }
      if op.Adds() && !r.full && !r.Aligned() {
      } else {
        AgreesIff(r.Next(op), Record(|r.slots|, l, op), NextItems(|r.slots|, items, op), ops[1..]);
      }
    }
  }

  /** The window follows the bounded queue through a whole run exactly when every insertion into a
      buffer with room happens after a multiple of `capacity` overwrites since the last clear. */
  lemma RefinesIffInStep<T>(capacity: nat, ops: seq<Op<T>>)
    requires 0 < capacity <= MAX_CAPACITY
    ensures AgreesThroughout(New(capacity), [], ops) <==> PushesInStep(capacity, FRESH, ops)
  {
    NewTracks<T>(capacity);
    NewHolds<T>(capacity);
    AgreesIff(New(capacity), FRESH, [], ops);
  }

  lemma {:induction false} RunHolds<T>(r: Ring<T>, l: Ledger, items: seq<T>, ops: seq<Op<T>>)
    requires Tracks(r, l) && Holds(r, items) && |items| <= |r.slots|
    requires PushesInStep(|r.slots|, l, ops)
    ensures Holds(After(r, ops), ItemsAfter(|r.slots|, items, ops))
    decreases |ops|
  {
    if ops != [] {
      TracksNext(r, l, ops[0]);
      StepRefines(r, l, items, ops[0]);
      RunHolds(r.Next(ops[0]), Record(|r.slots|, l, ops[0]), NextItems(|r.slots|, items, ops[0]), ops[1..]);
    }
  }

  /** The `i`-th call of a run returns what the queue returns, if the insertions before it are in step
      and it is not itself a `back` out of step. */
  lemma {:induction false} AnswerAtAgrees<T>(r: Ring<T>, l: Ledger, items: seq<T>, ops: seq<Op<T>>, i: nat)
    requires Tracks(r, l) && Holds(r, items) && |items| <= |r.slots| && i < |ops|
    requires PushesInStep(|r.slots|, l, ops[..i])
    requires BackInStep(|r.slots|, RecordAll(|r.slots|, l, ops[..i]), ops[i])
    ensures Answers(r, ops)[i] == ItemsAnswers(|r.slots|, items, ops)[i]
    decreases i
  {
    if i == 0 {
      AnswerAgrees(r, l, items, ops[0]);
    } else {
      assert ops[..i][1..] == ops[1..][..i - 1];
      TracksNext(r, l, ops[0]);
      StepRefines(r, l, items, ops[0]);
      AnswerAtAgrees(r.Next(ops[0]), Record(|r.slots|, l, ops[0]), NextItems(|r.slots|, items, ops[0]), ops[1..],
                     i - 1);
    }
  }

  lemma StepRefines<T>(r: Ring<T>, l: Ledger, items: seq<T>, op: Op<T>)
    requires Tracks(r, l) && Holds(r, items) && |items| <= |r.slots|
    requires op.Adds() && l.size < |r.slots| ==> InStep(|r.slots|, l)
    ensures Holds(r.Next(op), NextItems(|r.slots|, items, op))
  {
    AlignedIffInStep(r, l);
    assert |items| == |r.Window()| == r.count;
    if op.Adds() && !r.full {
      AppendsIffAligned(r, items, op);
    } else if op.Adds() {
      OverwriteSlides(r, items, op);
    } else {
      RemovalKeeps(r, items, op);
    }
  }

  /** On every run, each call before which all insertions were in step returns what the bounded queue
      returns, except a `back` that is itself out of step; and if all insertions are in step, the live
      slots at the end are exactly the queue's items. */
  lemma ResultsAgree<T>(capacity: nat, ops: seq<Op<T>>)
    requires 0 < capacity <= MAX_CAPACITY
    ensures forall i: nat | i < |ops| && PushesInStep(capacity, FRESH, ops[..i])
                            && BackInStep(capacity, RecordAll(capacity, FRESH, ops[..i]), ops[i]) ::
              Answers(New(capacity), ops)[i] == ItemsAnswers(capacity, [], ops)[i]
    ensures PushesInStep(capacity, FRESH, ops) ==> Holds(After(New(capacity), ops), ItemsAfter(capacity, [], ops))
  {
    NewTracks<T>(capacity);
    NewHolds<T>(capacity);
    forall i: nat | i < |ops| && PushesInStep(capacity, FRESH, ops[..i])
                    && BackInStep(capacity, RecordAll(capacity, FRESH, ops[..i]), ops[i])
      ensures Answers(New(capacity), ops)[i] == ItemsAnswers(capacity, [], ops)[i]
    {
      AnswerAtAgrees(New(capacity), FRESH, [], ops, i);
    }
    if PushesInStep(capacity, FRESH, ops) {
      RunHolds(New(capacity), FRESH, [], ops);
    }
  }

  /** The shortest kind of departure, on capacity 3: after four insertions and one removal the next
      insertion goes over the live fourth element, and the window ends in a slot without object. */
  lemma DriftWitness()
    ensures var r := After(New(3), [Push(1), Push(2), Push(3), Push(4), Pop, Push(5)]);
            && r.Window() == [Live(3), Live(5), Raw]
            && r.Ask(Back) == Item(5)
            && !PushesInStep(3, FRESH, [Push(1), Push(2), Push(3), Push(4), Pop, Push(5)])
  {
  }
}
