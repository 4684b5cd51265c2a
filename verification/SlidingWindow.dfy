/** Filling, sliding, draining and clearing. */
module SlidingWindow {
  import opened Indices
  import opened RingModel
  import opened BoundedQueue
  import opened Refinement

  predicate AllAdds<T>(ops: seq<Op<T>>) {
    forall i: nat | i < |ops| :: ops[i].Adds()
  }

  function Values<T>(adds: seq<Op<T>>): (xs: seq<T>)
    requires AllAdds(adds)
    ensures |xs| == |adds|
  {
    seq(|adds|, i requires 0 <= i < |adds| => adds[i].x)
  }

  /** The last `n` items, or all of them if there are fewer. */
  function Last<T>(n: nat, xs: seq<T>): seq<T> {
    if |xs| <= n then xs else xs[|xs| - n..]
  }

  lemma LastIgnoresLost<T>(capacity: nat, items: seq<T>, x: T, rest: seq<T>)
    requires 0 < capacity && |items| <= capacity
    ensures Last(capacity, items + ([x] + rest)) == Last(capacity, Add(capacity, items, x) + rest)
  {
    if |items| < capacity {
      assert items + ([x] + rest) == Add(capacity, items, x) + rest;
    } else {
      assert items + ([x] + rest) == [items[0]] + (Add(capacity, items, x) + rest);
      LastDropsFirst(capacity, items[0], Add(capacity, items, x) + rest);
    }
  }

  lemma LastDropsFirst<T>(n: nat, x: T, xs: seq<T>)
    requires n <= |xs|
    ensures Last(n, [x] + xs) == Last(n, xs)
  {
    assert ([x] + xs)[|xs| + 1 - n..] == xs[|xs| - n..];
  }

  lemma {:induction false} QueueKeepsLast<T>(capacity: nat, items: seq<T>, adds: seq<Op<T>>)
    requires 0 < capacity && |items| <= capacity && AllAdds(adds)
    ensures ItemsAfter(capacity, items, adds) == Last(capacity, items + Values(adds))
    decreases |adds|
  {
    if adds != [] {
      LastIgnoresLost(capacity, items, adds[0].x, Values(adds[1..]));
      assert [adds[0].x] + Values(adds[1..]) == Values(adds);
      QueueKeepsLast(capacity, NextItems(capacity, items, adds[0]), adds[1..]);
    } else {
      assert items + Values(adds) == items;
    }
  }

  lemma {:induction false} AddsInStep<T>(capacity: nat, l: Ledger, adds: seq<Op<T>>)
    requires 0 < capacity && AllAdds(adds) && (l.size < capacity ==> l.overwrites == 0)
    ensures PushesInStep(capacity, l, adds)
    decreases |adds|
  {
    if adds != [] {
      Remainder(0, 0, 0, capacity);
      AddsInStep(capacity, Record(capacity, l, adds[0]), adds[1..]);
    }
  }

  /** Where `n` insertions leave the indices of a ring that started empty at slot 0. */
  predicate FilledBy<T>(r: Ring<T>, n: nat) {
    && r.Usable()
    && r.head == (if n < |r.slots| then 0 else n % |r.slots|)
    && r.tail == (if n < |r.slots| then n else 0)
    && r.count == (if n < |r.slots| then n else |r.slots|)
  }

  lemma FillOne<T>(r: Ring<T>, n: nat, op: Op<T>)
    requires FilledBy(r, n) && op.Adds()
    ensures FilledBy(r.Next(op), n + 1)
  {
    NextRemainder(n, |r.slots|);
    if n + 1 == |r.slots| {
      Remainder(n + 1, 1, 0, |r.slots|);
    }
  }

  lemma {:induction false} Fill<T>(r: Ring<T>, n: nat, adds: seq<Op<T>>)
    requires FilledBy(r, n) && AllAdds(adds)
    ensures FilledBy(After(r, adds), n + |adds|)
    decreases |adds|
  {
    if adds != [] {
      FillOne(r, n, adds[0]);
      Fill(r.Next(adds[0]), n + 1, adds[1..]);
    }
  }

  /** The `i`-th element of the window after `n` insertions sits in slot `j % capacity`, where `j` is
      the number of insertions before its own. */
  lemma WindowSlot<T>(r: Ring<T>, n: nat, i: nat)
    requires FilledBy(r, n) && i < r.count
    ensures SlotIndex(r.head, i, |r.slots|) == (n - r.count + i) % |r.slots|
  {
    SlotIndexIsMachine(r.head, i, |r.slots|);
    if n < |r.slots| {
      Remainder(i, 0, i, |r.slots|);
    } else {
      RemainderOfSum(n, i, |r.slots|);
      OneCapacityMore(n - |r.slots| + i, |r.slots|);
    }
  }

  lemma OneCapacityMore(j: nat, m: nat)
    requires 0 < m
    ensures (j + m) % m == j % m
  {
    assert (j / m + 1) * m == j / m * m + m;
    Remainder(j + m, j / m + 1, j % m, m);
  }

  lemma WindowIsLast<T>(r: Ring<T>, adds: seq<Op<T>>)
    requires Tracks(r, FRESH) && Holds(r, []) && AllAdds(adds)
    ensures Holds(After(r, adds), Last(|r.slots|, Values(adds)))
    ensures |Last(|r.slots|, Values(adds))| == After(r, adds).count
  {
    assert |r.Window()| == 0;
    AddsInStep(|r.slots|, FRESH, adds);
    RunHolds(r, FRESH, [], adds);
    QueueKeepsLast(|r.slots|, [], adds);
    assert [] + Values(adds) == Values(adds);
    assert |After(r, adds).Window()| == |Last(|r.slots|, Values(adds))|;
  }

  lemma EndsOfLast<T>(r: Ring<T>, adds: seq<Op<T>>)
    requires Tracks(r, FRESH) && Holds(r, []) && AllAdds(adds) && adds != []
    ensures After(r, adds).Ask(Front) == Item(Last(|r.slots|, Values(adds))[0])
    ensures After(r, adds).Ask(Back) == Item(adds[|adds| - 1].x)
  {
    var l := RecordAll(|r.slots|, FRESH, adds);
    WindowIsLast(r, adds);
    TracksRun(r, FRESH, adds);
    AddsLedger(|r.slots|, FRESH, adds);
    AskAgrees(After(r, adds), l, Last(|r.slots|, Values(adds)), Front);
    AskAgrees(After(r, adds), l, Last(|r.slots|, Values(adds)), Back);
    NewestIsLast(|r.slots|, adds);
  }

  lemma NewestIsLast<T>(capacity: nat, adds: seq<Op<T>>)
    requires 0 < capacity && AllAdds(adds) && adds != []
    ensures var items := Last(capacity, Values(adds)); items != [] && items[|items| - 1] == adds[|adds| - 1].x
  {
  }

  lemma {:induction false} AddsLedger<T>(capacity: nat, l: Ledger, adds: seq<Op<T>>)
    requires 0 < capacity && AllAdds(adds) && (l.overwrites == 0 || l.newestOverwrote) && l.size <= capacity
    requires l.size < capacity ==> l.overwrites == 0
    ensures var end := RecordAll(capacity, l, adds); end.newestOverwrote || InStep(capacity, end)
    decreases |adds|
  {
    Remainder(0, 0, 0, capacity);
    if adds != [] {
      AddsLedger(capacity, Record(capacity, l, adds[0]), adds[1..]);
    }
  }

  function Pops<T>(n: nat): (ops: seq<Op<T>>)
    ensures |ops| == n
  {
    seq(n, _ => Pop)
  }

  function Given<T>(items: seq<T>): (results: seq<Result<T>>)
    ensures |results| == |items|
  {
    seq(|items|, i requires 0 <= i < |items| => Item(items[i]))
  }

  /** Removing until empty returns exactly the items, oldest first, wherever the tail stands. */
  lemma {:induction false} DrainReturnsItems<T>(r: Ring<T>, items: seq<T>)
    requires Holds(r, items)
    ensures Answers(r, Pops(|items|)) == Given(items)
    ensures Holds(After(r, Pops(|items|)), [])
    decreases |items|
  {
    assert |items| == |r.Window()| == r.count;
    if items != [] {
      HoldsAt(r, items, 0);
      RemovalKeeps(r, items, Pop);
      DrainReturnsItems(r.Next(Pop), items[1..]);
      assert Pops<T>(|items|)[1..] == Pops(|items| - 1);
      assert Given(items) == [Item(items[0])] + Given(items[1..]);
    }
  }

  // ---------------------------------------------------------------------------------------------
  // Clearing
  // ---------------------------------------------------------------------------------------------

  /** Equal control fields, but for the overwrite mark of an empty ring, which no call can see. */
  predicate SameControls<T>(a: Ring<T>, b: Ring<T>) {
    && a.Usable() && b.Usable() && |a.slots| == |b.slots|
    && a.head == b.head && a.tail == b.tail && a.count == b.count && a.full == b.full
    && (0 < a.count ==>
          && a.justOverwrote == b.justOverwrote
          && (a.justOverwrote ==> a.overwritePosition == b.overwritePosition))
  }

  /** No call, now or later, can tell the two apart: either the storage is equal too, or it differs
      outside equal windows only, and the tails are where every such slot is written before it is read. */
  predicate LooksAlike<T(==)>(a: Ring<T>, b: Ring<T>) {
    && SameControls(a, b)
    && (|| a.slots == b.slots
        || (a.Aligned() && (0 < a.count ==> !a.justOverwrote) && a.Window() == b.Window()))
  }

  lemma SameAt<T>(a: Ring<T>, b: Ring<T>, i: nat)
    requires SameControls(a, b) && a.Window() == b.Window() && i < a.count
    ensures a.slots[SlotIndex(a.head, i, |a.slots|)] == b.slots[SlotIndex(a.head, i, |a.slots|)]
  {
    assert a.Window()[i] == b.Window()[i];
  }

  /** The window of a full ring is all of its storage. */
  lemma FullWindowIsAll<T>(a: Ring<T>, b: Ring<T>)
    requires SameControls(a, b) && a.Window() == b.Window() && a.full
    ensures a.slots == b.slots
  {
    forall j: nat | j < |a.slots| ensures a.slots[j] == b.slots[j] {
      SameAt(a, b, Offset(a.head, j, |a.slots|));
    }
  }

  lemma AlikeAnswer<T>(a: Ring<T>, b: Ring<T>, op: Op<T>)
    requires LooksAlike(a, b)
    ensures a.Answer(op) == b.Answer(op)
  {
    if a.slots != b.slots && 0 < a.count {
      SameAt(a, b, 0);
      SameAt(a, b, a.count - 1);
      if op.Read? && op.q.At? && op.q.index < a.count {
        SameAt(a, b, op.q.index);
      }
    }
  }

  lemma AlikePush<T>(a: Ring<T>, b: Ring<T>, x: T)
    requires LooksAlike(a, b) && !a.full && a.slots != b.slots
    ensures LooksAlike(a.PushBack(x), b.PushBack(x))
  {
    var a', b' := a.PushBack(x), b.PushBack(x);
    forall i: nat | i < a'.count ensures a'.Window()[i] == b'.Window()[i] {
      if i < a.count {
        SameAt(a, b, i);
      }
    }
    assert a'.Window() == b'.Window();
  }

  lemma AlikePop<T>(a: Ring<T>, b: Ring<T>)
    requires LooksAlike(a, b) && 0 < a.count && a.slots != b.slots
    ensures LooksAlike(a.PopFront(), b.PopFront())
  {
    var a', b' := a.PopFront(), b.PopFront();
    forall i: nat | i < a'.count ensures a'.Window()[i] == b'.Window()[i] {
      SameAt(a, b, i + 1);
    }
    assert a'.Window() == b'.Window();
  }

  lemma AlikeNext<T>(a: Ring<T>, b: Ring<T>, op: Op<T>)
    requires LooksAlike(a, b)
    ensures LooksAlike(a.Next(op), b.Next(op))
  {
    if a.slots != b.slots {
      if op.Adds() {
        NextOfAdd(a, op);
        NextOfAdd(b, op);
        if a.full {
          FullWindowIsAll(a, b);
        } else {
          AlikePush(a, b, op.x);
        }
      } else if op.Pop? && 0 < a.count {
        AlikePop(a, b);
      }
    } else {
      AlikeStorage(a, b, op);
    }
  }

  lemma AlikeStorage<T>(a: Ring<T>, b: Ring<T>, op: Op<T>)
    requires SameControls(a, b) && a.slots == b.slots
    ensures SameControls(a.Next(op), b.Next(op)) && a.Next(op).slots == b.Next(op).slots
  {
  }

  lemma {:induction false} AlikeBehaveAlike<T>(a: Ring<T>, b: Ring<T>, ops: seq<Op<T>>)
    requires LooksAlike(a, b)
    ensures Answers(a, ops) == Answers(b, ops) && After(a, ops).Window() == After(b, ops).Window()
    decreases |ops|
  {
    if ops != [] {
      AlikeAnswer(a, b, ops[0]);
      AlikeNext(a, b, ops[0]);
      AlikeBehaveAlike(a.Next(ops[0]), b.Next(ops[0]), ops[1..]);
    }
  }

  /** Clearing leaves no object behind exactly when no object lay outside the window. */
  lemma ClearLeavesNothingIff<T>(r: Ring<T>)
    requires r.Usable()
    ensures r.Cleared().slots == New<T>(|r.slots|).slots <==>
            forall j: nat | j < |r.slots| && r.slots[j].Live? :: r.InWindow(j)
  {
    if r.Cleared().slots == New<T>(|r.slots|).slots {
      forall j: nat | j < |r.slots| && r.slots[j].Live? ensures r.InWindow(j) {
        assert r.Cleared().slots[j] == New<T>(|r.slots|).slots[j] == Raw;
      }
    }
  }

  /** A cleared ring is where the sliding window starts again: empty, at slot 0, no overwrites. */
  lemma ClearStartsAfresh<T>(r: Ring<T>, l: Ledger, items: seq<T>)
    requires Tracks(r, l) && Holds(r, items)
    ensures Tracks(r.Cleared(), FRESH) && Holds(r.Cleared(), []) && r.Cleared().head == 0
  {
  }

  /** After any run at all and a clear, any later run at all returns what it returns on a new buffer of
      that capacity, and ends with the same window: even objects that the clear left behind are
      constructed over before a call could reach them. */
  lemma ClearResynchronises<T>(capacity: nat, before: seq<Op<T>>, later: seq<Op<T>>)
    requires 0 < capacity <= MAX_CAPACITY
    ensures var cleared := After(New(capacity), before).Next(Clear);
            && Answers(cleared, later) == Answers(New(capacity), later)
            && After(cleared, later).Window() == After(New(capacity), later).Window()
  {
    var cleared := After(New(capacity), before).Next(Clear);
    assert cleared.Window() == New<T>(capacity).Window();
    AlikeBehaveAlike(cleared, New(capacity), later);
  }

  // ---------------------------------------------------------------------------------------------
  // The sliding window
  // ---------------------------------------------------------------------------------------------

  /** No elements, at slot 0: a new ring, or one just cleared, whatever objects lie in its slots. */
  predicate Emptied<T>(r: Ring<T>) {
    r.Usable() && r.head == r.tail == r.count == 0
  }

  lemma {:induction false} AlikeAfter<T>(a: Ring<T>, b: Ring<T>, ops: seq<Op<T>>)
    requires LooksAlike(a, b)
    ensures LooksAlike(After(a, ops), After(b, ops))
    decreases |ops|
  {
    if ops != [] {
      AlikeNext(a, b, ops[0]);
      AlikeAfter(a.Next(ops[0]), b.Next(ops[0]), ops[1..]);
    }
  }

  lemma EmptiedIsAlike<T>(r: Ring<T>)
    requires Emptied(r)
    ensures LooksAlike(r, New(|r.slots|))
  {
    assert r.Window() == New<T>(|r.slots|).Window();
  }

  /** After any number of insertions into an emptied ring, the elements are the last `capacity` inserted
      values in order, the `j`-th inserted value sits in slot `j % capacity`, and `front` and `back` are
      the oldest and the newest of them. If no object lay in the slots before, these are all. */
  lemma SlidingWindowAfter<T>(r: Ring<T>, adds: seq<Op<T>>)
    requires Emptied(r) && AllAdds(adds)
    ensures After(r, adds).Window() == Lives(Last(|r.slots|, Values(adds)))
    ensures forall j: nat | |adds| - |Last(|r.slots|, Values(adds))| <= j < |adds| ::
              After(r, adds).slots[j % |r.slots|] == Live(adds[j].x)
    ensures adds != [] ==>
              && |Last(|r.slots|, Values(adds))| != 0
              && After(r, adds).Ask(Front) == Item(Last(|r.slots|, Values(adds))[0])
              && After(r, adds).Ask(Back) == Item(adds[|adds| - 1].x)
    ensures Holds(r, []) ==> Holds(After(r, adds), Last(|r.slots|, Values(adds)))
  {
    LastInWindow(r, adds);
    SlotsOfLast(r, adds);
    if Holds(r, []) {
      Remainder(0, 0, 0, |r.slots|);
      WindowIsLast(r, adds);
    }
    if adds != [] {
      var model := New(|r.slots|);
      EmptiedIsAlike(r);
      AlikeAfter(r, model, adds);
      AlikeAnswer(After(r, adds), After(model, adds), Read(Front));
      AlikeAnswer(After(r, adds), After(model, adds), Read(Back));
      NewTracks<T>(|r.slots|);
      NewHolds<T>(|r.slots|);
      EndsOfLast(model, adds);
    }
  }

  lemma LastInWindow<T>(r: Ring<T>, adds: seq<Op<T>>)
    requires Emptied(r) && AllAdds(adds)
    ensures After(r, adds).Window() == Lives(Last(|r.slots|, Values(adds)))
    ensures |Last(|r.slots|, Values(adds))| == After(r, adds).count
  {
    NewTracks<T>(|r.slots|);
    NewHolds<T>(|r.slots|);
    WindowIsLast(New(|r.slots|), adds);
    EmptiedIsAlike(r);
    AlikeBehaveAlike(r, New(|r.slots|), adds);
    assert |After(r, adds).Window()| == |Last(|r.slots|, Values(adds))|;
  }

  lemma SlotsOfLast<T>(r: Ring<T>, adds: seq<Op<T>>)
    requires Emptied(r) && AllAdds(adds)
    ensures forall j: nat | |adds| - |Last(|r.slots|, Values(adds))| <= j < |adds| ::
              After(r, adds).slots[j % |r.slots|] == Live(adds[j].x)
  {
    var cap, end, items := |r.slots|, After(r, adds), Last(|r.slots|, Values(adds));
    LastInWindow(r, adds);
    Remainder(0, 0, 0, cap);
    Fill(r, 0, adds);
    forall j: nat | |adds| - |items| <= j < |adds| ensures end.slots[j % cap] == Live(adds[j].x) {
      var i := j - (|adds| - |items|);
      WindowSlot(end, |adds|, i);
      assert end.Window()[i] == Lives(items)[i];
    }
  }

  /** So it is after any run at all and a clear. */
  lemma SlidingWindowAfterClear<T>(capacity: nat, before: seq<Op<T>>, adds: seq<Op<T>>)
    requires 0 < capacity <= MAX_CAPACITY && AllAdds(adds)
    ensures var r, items := After(After(New(capacity), before).Next(Clear), adds), Last(capacity, Values(adds));
            && r.Window() == Lives(items)
            && (forall j: nat | |adds| - |items| <= j < |adds| :: r.slots[j % capacity] == Live(adds[j].x))
            && (items != [] ==> r.Ask(Front) == Item(items[0]) && r.Ask(Back) == Item(items[|items| - 1]))
  {
    SlidingWindowAfter(After(New(capacity), before).Next(Clear), adds);
    if adds != [] {
      NewestIsLast(capacity, adds);
    }
  }
}
