/** Object lifetimes: which slot each operation constructs, assigns, moves out of or destroys, and
    when every one of those touches meets a slot in the state it needs. */
module Lifetimes {
  import opened Indices
  import opened RingModel
  import opened Refinement

  datatype Touch<+T> = Construct(at: nat, x: T) | Assign(at: nat, x: T) | MoveOut(at: nat) | Destroy(at: nat)

  /** The touches of one operation, in program order. */
  function Touches<T>(r: Ring<T>, op: Op<T>): seq<Touch<T>>
    requires r.Usable()
  {
    match op
    case Push(x) => if r.full then [Assign(r.head, x)] else [Construct(r.tail, x)]
    case Emplace(x) => if r.full then [Destroy(r.head), Construct(r.head, x)] else [Construct(r.tail, x)]
    case Pop => if r.count == 0 then [] else [MoveOut(r.head), Destroy(r.head)]
    case Clear => Destructions(r, 0)
    case Read(_) => []
  }

  /** The touches of the clearing loop from its `i`-th round on. */
  function Destructions<T>(r: Ring<T>, i: nat): seq<Touch<T>>
    requires r.Usable() && i <= r.count
    decreases r.count - i
  {
    if i == r.count then [] else [Destroy(SlotIndex(r.head, i, |r.slots|))] + Destructions(r, i + 1)
  }

  function RunTouches<T>(r: Ring<T>, ops: seq<Op<T>>): seq<Touch<T>>
    requires r.Usable()
    decreases |ops|
  {
    if ops == [] then [] else Touches(r, ops[0]) + RunTouches(r.Next(ops[0]), ops[1..])
  }

  /** What a touch makes of the storage. A moved-from object is still an object. */
  function Touched<T>(slots: seq<Slot<T>>, t: Touch<T>): (after: seq<Slot<T>>)
    ensures |after| == |slots|
  {
    if t.at >= |slots| then slots else
      match t
      case Construct(i, x) => slots[i := Live(x)]
      case Assign(i, x) => slots[i := Live(x)]
      case MoveOut(_) => slots
      case Destroy(i) => slots[i := Raw]
  }

  function TouchedAll<T>(slots: seq<Slot<T>>, ts: seq<Touch<T>>): (after: seq<Slot<T>>)
    ensures |after| == |slots|
    decreases |ts|
  {
    if ts == [] then slots else TouchedAll(Touched(slots, ts[0]), ts[1..])
  }

  /** Construction needs raw storage; everything else needs an object. */
  predicate Lawful<T>(slots: seq<Slot<T>>, t: Touch<T>) {
    t.at < |slots| && if t.Construct? then slots[t.at].Raw? else slots[t.at].Live?
  }

  predicate AllLawful<T>(slots: seq<Slot<T>>, ts: seq<Touch<T>>)
    decreases |ts|
  {
    ts != [] ==> Lawful(slots, ts[0]) && AllLawful(Touched(slots, ts[0]), ts[1..])
  }

  /** Constructions minus destructions. */
  function Balance<T>(ts: seq<Touch<T>>): int
    decreases |ts|
  {
    if ts == [] then 0
    else (if ts[0].Construct? then 1 else if ts[0].Destroy? then -1 else 0) + Balance(ts[1..])
  }

  lemma {:induction false} Concatenation<T>(slots: seq<Slot<T>>, a: seq<Touch<T>>, b: seq<Touch<T>>)
    ensures TouchedAll(slots, a + b) == TouchedAll(TouchedAll(slots, a), b)
    ensures AllLawful(slots, a + b) <==> AllLawful(slots, a) && AllLawful(TouchedAll(slots, a), b)
    ensures Balance(a + b) == Balance(a) + Balance(b)
    decreases |a|
  {
    if a == [] {
      assert a + b == b;
    } else {
      assert (a + b)[1..] == a[1..] + b;
      Concatenation(Touched(slots, a[0]), a[1..], b);
    }
  }

  lemma TwoTouches<T>(slots: seq<Slot<T>>, a: Touch<T>, b: Touch<T>)
    ensures TouchedAll(slots, [a, b]) == Touched(Touched(slots, a), b)
    ensures AllLawful(slots, [a, b]) <==> Lawful(slots, a) && Lawful(Touched(slots, a), b)
    ensures Balance([a, b]) == Balance([a]) + Balance([b])
  {
    assert [a, b] == [a] + [b];
    Concatenation(slots, [a], [b]);
  }

  /** The clearing loop destroys each window slot exactly once. */
  lemma {:induction false} DestructionsEffect<T>(r: Ring<T>, i: nat)
    requires r.Usable() && i <= r.count
    ensures TouchedAll(r.DestroyedUpTo(i), Destructions(r, i)) == r.DestroyedUpTo(r.count)
    ensures Balance(Destructions(r, i)) == i - r.count
    decreases r.count - i
  {
    if i < r.count {
      DestroyNext(r, i);
      DestructionsEffect(r, i + 1);
    }
  }

  /** The clearing loop needs every slot it destroys to hold an object. */
  lemma {:induction false} DestructionsLawfulIff<T>(r: Ring<T>, i: nat)
    requires r.Usable() && i <= r.count
    ensures AllLawful(r.DestroyedUpTo(i), Destructions(r, i))
            <==> forall k: nat | i <= k < r.count :: r.slots[SlotIndex(r.head, k, |r.slots|)].Live?
    decreases r.count - i
  {
    if i < r.count {
      DestroyNext(r, i);
      DestructionsLawfulIff(r, i + 1);
    }
  }

  /** The touches account for the whole effect of an operation on the storage and on the count. */
  lemma TouchesAccount<T>(r: Ring<T>, op: Op<T>)
    requires r.Usable()
    ensures TouchedAll(r.slots, Touches(r, op)) == r.Next(op).slots
    ensures Balance(Touches(r, op)) == r.Next(op).count - r.count
  {
    if op.Clear? {
      DestructionsEffect(r, 0);
      assert r.DestroyedUpTo(0) == r.slots;
    } else if op.Emplace? && r.full {
      TwoTouches(r.slots, Destroy(r.head), Construct(r.head, op.x));
    } else if op.Pop? && 0 < r.count {
      TwoTouches(r.slots, MoveOut(r.head), Destroy(r.head));
    }
  }

  /** On a ring whose live slots are its window every touch of every operation is lawful, except
      that an insertion into a ring with room needs its tail to lie outside the window. */
  lemma StepLawfulIff<T>(r: Ring<T>, op: Op<T>)
    requires r.Usable() && r.Exact()
    ensures AllLawful(r.slots, Touches(r, op)) <==> (op.Adds() && !r.full ==> !r.InWindow(r.tail))
  {
    if op.Clear? {
      DestructionsLawfulIff(r, 0);
      assert r.DestroyedUpTo(0) == r.slots;
    } else if op.Adds() && r.full {
      assert Offset(r.head, r.head, |r.slots|) == 0;
      assert r.InWindow(r.head);
      if op.Emplace? {
        TwoTouches(r.slots, Destroy(r.head), Construct(r.head, op.x));
      }
    } else if op.Pop? && 0 < r.count {
      assert r.InWindow(r.head);
      TwoTouches(r.slots, MoveOut(r.head), Destroy(r.head));
    }
  }

  /** Of a ring with room, the tail lies inside the window exactly when the overwrites since the last
      clear leave a remainder between one and the size. */
  lemma TailInWindowIff<T>(r: Ring<T>, l: Ledger)
    requires Tracks(r, l) && !r.full
    ensures r.InWindow(r.tail) <==> 0 < l.overwrites % |r.slots| <= l.size
  {
  }

  /** The same condition by what a caller can count. */
  lemma StepLawfulByCounting<T>(r: Ring<T>, l: Ledger, op: Op<T>)
    requires Tracks(r, l) && r.Exact()
    ensures AllLawful(r.slots, Touches(r, op)) <==>
            (op.Adds() && l.size < |r.slots| ==> !(0 < l.overwrites % |r.slots| <= l.size))
  {
    StepLawfulIff(r, op);
    if !r.full {
      TailInWindowIff(r, l);
    }
  }

  /** For every run, in step or not, the touches account for the storage at its end and
      constructions exceed destructions by the count. */
  lemma {:induction false} RunAccounts<T>(r: Ring<T>, ops: seq<Op<T>>)
    requires r.Usable()
    ensures TouchedAll(r.slots, RunTouches(r, ops)) == After(r, ops).slots
    ensures Balance(RunTouches(r, ops)) == After(r, ops).count - r.count
    decreases |ops|
  {
    if ops != [] {
      TouchesAccount(r, ops[0]);
      RunAccounts(r.Next(ops[0]), ops[1..]);
      Concatenation(r.slots, Touches(r, ops[0]), RunTouches(r.Next(ops[0]), ops[1..]));
    }
  }

  // ---------------------------------------------------------------------------------------------
  // The values that go in and out
  // ---------------------------------------------------------------------------------------------

  /** The values constructed or assigned, in order. */
  function Entered<T>(ts: seq<Touch<T>>): seq<T>
    decreases |ts|
  {
    if ts == [] then []
    else (if ts[0].Construct? || ts[0].Assign? then [ts[0].x] else []) + Entered(ts[1..])
  }

  /** Of these, the values assigned to an object that stays. */
  function Assigned<T>(ts: seq<Touch<T>>): seq<T>
    decreases |ts|
  {
    if ts == [] then [] else (if ts[0].Assign? then [ts[0].x] else []) + Assigned(ts[1..])
  }

  /** What the touches move out of slots, in order. */
  function MovedOut<T>(slots: seq<Slot<T>>, ts: seq<Touch<T>>): seq<Result<T>>
    decreases |ts|
  {
    if ts == [] then []
    else (if ts[0].MoveOut? then [Found(slots, ts[0].at)] else []) + MovedOut(Touched(slots, ts[0]), ts[1..])
  }

  function Found<T>(slots: seq<Slot<T>>, at: nat): Result<T> {
    if at < |slots| && slots[at].Live? then Item(slots[at].v) else Undefined
  }

  lemma {:induction false} EnteredByBoth<T>(a: seq<Touch<T>>, b: seq<Touch<T>>)
    ensures Entered(a + b) == Entered(a) + Entered(b)
    decreases |a|
  {
    if a == [] {
      assert a + b == b;
    } else {
      assert (a + b)[1..] == a[1..] + b;
      EnteredByBoth(a[1..], b);
      var first := if a[0].Construct? || a[0].Assign? then [a[0].x] else [];
      assert first + (Entered(a[1..]) + Entered(b)) == first + Entered(a[1..]) + Entered(b);
    }
  }

  lemma {:induction false} AssignedByBoth<T>(a: seq<Touch<T>>, b: seq<Touch<T>>)
    ensures Assigned(a + b) == Assigned(a) + Assigned(b)
    decreases |a|
  {
    if a == [] {
      assert a + b == b;
    } else {
      assert (a + b)[1..] == a[1..] + b;
      AssignedByBoth(a[1..], b);
      var first := if a[0].Assign? then [a[0].x] else [];
      assert first + (Assigned(a[1..]) + Assigned(b)) == first + Assigned(a[1..]) + Assigned(b);
    }
  }

  lemma {:induction false} MovedOutByBoth<T>(slots: seq<Slot<T>>, a: seq<Touch<T>>, b: seq<Touch<T>>)
    ensures MovedOut(slots, a + b) == MovedOut(slots, a) + MovedOut(TouchedAll(slots, a), b)
    decreases |a|
  {
    if a == [] {
      assert a + b == b;
    } else {
      assert (a + b)[1..] == a[1..] + b;
      MovedOutByBoth(Touched(slots, a[0]), a[1..], b);
    }
  }

  lemma {:induction false} DestructionsMoveNothing<T>(r: Ring<T>, slots: seq<Slot<T>>, i: nat)
    requires r.Usable() && i <= r.count
    ensures Entered(Destructions(r, i)) == [] && Assigned(Destructions(r, i)) == []
    ensures MovedOut(slots, Destructions(r, i)) == []
    decreases r.count - i
  {
    if i < r.count {
      DestructionsMoveNothing(r, Touched(slots, Destructions(r, i)[0]), i + 1);
    }
  }

  /** The values of a run's insertions. */
  function Inserted<T>(ops: seq<Op<T>>): seq<T>
    decreases |ops|
  {
    if ops == [] then [] else (if ops[0].Adds() then [ops[0].x] else []) + Inserted(ops[1..])
  }

  /** The values that `push_back` puts into a full buffer. */
  function PushedOver<T>(capacity: nat, l: Ledger, ops: seq<Op<T>>): seq<T>
    decreases |ops|
  {
    if ops == [] then []
    else (if ops[0].Push? && l.size == capacity then [ops[0].x] else [])
         + PushedOver(capacity, Record(capacity, l, ops[0]), ops[1..])
  }

  /** What the removals of a run hand out. */
  function HandedOut<T>(ops: seq<Op<T>>, answers: seq<Result<T>>): seq<Result<T>>
    requires |ops| == |answers|
    decreases |ops|
  {
    if ops == [] then []
    else (if ops[0].Pop? && !answers[0].Throws? then [answers[0]] else []) + HandedOut(ops[1..], answers[1..])
  }

  lemma ValuesOfTwo<T>(slots: seq<Slot<T>>, a: Touch<T>, b: Touch<T>)
    ensures Entered([a, b]) == Entered([a]) + Entered([b]) && Assigned([a, b]) == Assigned([a]) + Assigned([b])
    ensures MovedOut(slots, [a, b]) == MovedOut(slots, [a]) + MovedOut(Touched(slots, a), [b])
  {
    assert [a, b] == [a] + [b];
    EnteredByBoth([a], [b]);
    AssignedByBoth([a], [b]);
    MovedOutByBoth(slots, [a], [b]);
  }

  lemma StepValues<T>(r: Ring<T>, op: Op<T>)
    requires r.Usable()
    ensures Entered(Touches(r, op)) == (if op.Adds() then [op.x] else [])
    ensures Assigned(Touches(r, op)) == (if op.Push? && r.full then [op.x] else [])
    ensures MovedOut(r.slots, Touches(r, op)) == (if op.Pop? && !r.Answer(op).Throws? then [r.Answer(op)] else [])
  {
    if op.Clear? {
      DestructionsMoveNothing(r, r.slots, 0);
    } else if op.Emplace? && r.full {
      ValuesOfTwo(r.slots, Destroy(r.head), Construct(r.head, op.x));
    } else if op.Pop? && 0 < r.count {
      ValuesOfTwo(r.slots, MoveOut(r.head), Destroy(r.head));
    }
  }

  /** Over every run, in step or not: each inserted value is constructed or assigned once, in order, and
      assigned exactly where `push_back` meets a full buffer; and each removal returns what it moves out
      of a slot. */
  lemma {:induction false} RunValues<T>(r: Ring<T>, l: Ledger, ops: seq<Op<T>>)
    requires Tracks(r, l)
    ensures Entered(RunTouches(r, ops)) == Inserted(ops)
    ensures Assigned(RunTouches(r, ops)) == PushedOver(|r.slots|, l, ops)
    ensures MovedOut(r.slots, RunTouches(r, ops)) == HandedOut(ops, Answers(r, ops))
    decreases |ops|
  {
    if ops != [] {
      StepValues(r, ops[0]);
      TouchesAccount(r, ops[0]);
      TracksNext(r, l, ops[0]);
      RunValues(r.Next(ops[0]), Record(|r.slots|, l, ops[0]), ops[1..]);
      EnteredByBoth(Touches(r, ops[0]), RunTouches(r.Next(ops[0]), ops[1..]));
      AssignedByBoth(Touches(r, ops[0]), RunTouches(r.Next(ops[0]), ops[1..]));
      MovedOutByBoth(r.slots, Touches(r, ops[0]), RunTouches(r.Next(ops[0]), ops[1..]));
      assert Answers(r, ops)[1..] == Answers(r.Next(ops[0]), ops[1..]);
    }
  }
}
