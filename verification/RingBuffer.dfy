/** The ring buffer itself: fields and storage updated in place, and its iterators.

    Every method is proved to do to the fields what the value model says; what that amounts to is
    proved there. Index arithmetic is written as the machine does it. */
module RingBuffers {
  import opened Indices
  import opened RingModel
  import opened BoundedQueue
  import opened LaggingQueue
  import opened Refinement
  import opened CopyMove
  import SlidingWindow

  /** The values in the window of a ring whose live slots are its window. */
  ghost function Items<T>(r: Ring<T>): (items: seq<T>)
    requires r.Usable() && r.Exact()
    ensures Holds(r, items)
  {
    WindowLive(r);
    var items := seq(r.count, i requires 0 <= i < r.count => r.Window()[i].v);
    assert r.Window() == Lives(items);
    items
  }

  lemma WindowLive<T>(r: Ring<T>)
    requires r.Usable() && r.Exact()
    ensures forall i: nat | i < r.count :: r.Window()[i].Live?
  {
  }

  datatype Creation<T> = Created(ring: RingBuffer<T>) | InvalidCapacity | NoStorage

  class RingBuffer<T> {
    var buffer: array?<Slot<T>>
    var capacity: nat
    var head: nat
    var tail: nat
    var count: nat
    var full: bool
    var justOverwrote: bool
    var overwritePosition: nat

    /** The state as a value. */
    ghost function Model(): Ring<T>
      reads this, buffer
    {
      Ring(if buffer == null then [] else buffer[..], head, tail, count, full, justOverwrote, overwritePosition)
    }

    ghost predicate Valid()
      reads this, buffer
    {
      capacity == |Model().slots| && Model().WellFormed()
    }

    constructor (capacity: nat)
      requires 0 < capacity <= MAX_CAPACITY
      ensures Valid() && fresh(buffer)
      ensures Model() == New(capacity)
    {
      this.capacity := capacity;
      buffer := new Slot<T>[capacity](_ => Raw);
      head, tail, count := 0, 0, 0;
      full, justOverwrote, overwritePosition := false, false, 0;
      new;
      assert buffer[..] == New<T>(capacity).slots;
    }

    /** Construction as the caller sees it: capacity zero is refused, and no allocator hands out more
        than 2^63 places. */
    static method Create(capacity: nat) returns (c: Creation<T>)
      ensures c.InvalidCapacity? <==> capacity == 0
      ensures c.NoStorage? <==> MAX_CAPACITY < capacity
      ensures c.Created? ==> fresh(c.ring) && c.ring.Valid() && c.ring.Model() == New(capacity)
    {
      if capacity > MAX_CAPACITY {
        return NoStorage;
      }
      if capacity == 0 {
        return InvalidCapacity;
      }
      var r := new RingBuffer<T>(capacity);
      c := Created(r);
    }

    // Index updates

    method IncrementHead()
      requires Valid() && 0 < capacity
      modifies `head, `full, `count, `justOverwrote
      ensures Valid() && Model() == old(Model()).IncrementHead()
    {
      NextIndexIsMachine(head, capacity);
      head := Wrapped(head + 1) % capacity;
      if full {
        full := false;
      }
      if count > 0 {
        count := count - 1;
      }
      justOverwrote := false;
    }

    method OverwriteAdvanceHead()
      requires Valid() && 0 < capacity
      modifies `overwritePosition, `head, `justOverwrote
      ensures Valid() && Model() == old(Model()).OverwriteAdvanceHead()
    {
      NextIndexIsMachine(head, capacity);
      overwritePosition := head;
      head := Wrapped(head + 1) % capacity;
      justOverwrote := true;
    }

    method IncrementTail()
      requires Valid() && 0 < capacity
      modifies `tail, `count, `full, `justOverwrote
      ensures Valid() && Model() == old(Model()).IncrementTail()
    {
      NextIndexIsMachine(tail, capacity);
      tail := Wrapped(tail + 1) % capacity;
      if !full {
        count := count + 1;
        full := count == capacity;
      }
      justOverwrote := false;
    }

    // Operations

    /** Both overloads of `push_back`, on any buffer: full, every element moves up, the oldest is gone and
        `x` is the last; with room, `x` goes behind the place after the last element by the lag, and all
        others stay. On a buffer whose objects are exactly its elements the result is the queue with `x`
        added exactly when the buffer was full or its tail at the window's end. */
    method PushBack(x: T)
      requires Valid() && 0 < capacity
      modifies this, buffer
      ensures Valid() && buffer == old(buffer) && capacity == old(capacity)
      ensures Model() == old(Model()).PushBack(x)
      ensures View(Model()) == old(View(Model()).Inserted(x))
      ensures Model().Ask(RingModel.Back) == Item(x)
      ensures MovedUp(old(Model()), Model(), x) || PutBehind(old(Model()), Model(), x)
      ensures old(Model().Exact()) ==>
                (Model().Window() == Lives(Add(capacity, old(Items(Model())), x))
                 <==> old(full || Model().Aligned()))
    {
      ghost var before := Model();
      if full {
        buffer[head] := Live(x);
        assert Model().slots == before.Put(head, x).slots;
        OverwriteAdvanceHead();
      } else {
        buffer[tail] := Live(x);
        assert Model().slots == before.Put(tail, x).slots;
        IncrementTail();
      }
      InsertedAnywhere(before, x);
      if before.Exact() {
        PushedIff(before, x);
      }
    }

    method EmplaceBack(x: T)
      requires Valid() && 0 < capacity
      modifies this, buffer
      ensures Valid() && buffer == old(buffer) && capacity == old(capacity)
      ensures Model() == old(Model()).EmplaceBack(x) == old(Model()).PushBack(x)
      ensures View(Model()) == old(View(Model()).Inserted(x))
      ensures Model().Ask(RingModel.Back) == Item(x)
      ensures MovedUp(old(Model()), Model(), x) || PutBehind(old(Model()), Model(), x)
    {
      ghost var before := Model();
      if full {
        buffer[head] := Raw;
        buffer[head] := Live(x);
        assert Model().slots == before.DestroyAt(head).Put(head, x).slots;
        OverwriteAdvanceHead();
      } else {
        buffer[tail] := Live(x);
        assert Model().slots == before.Put(tail, x).slots;
        IncrementTail();
      }
      EmplaceIsPush(before, x);
      InsertedAnywhere(before, x);
    }

    method PopFront() returns (r: Result<T>)
      requires Valid()
      modifies this, buffer
      ensures Valid() && buffer == old(buffer) && capacity == old(capacity)
      ensures r == old(Model()).Answer(Pop) && Model() == old(Model()).PopFront()
      ensures 0 < capacity ==> r == old(View(Model()).Answer(Pop)) && View(Model()) == old(View(Model()).Next(Pop))
    {
      if Empty() {
        return Throws(EmptyBuffer);
      }
      ghost var before := Model();
      ViewNext(before, Pop);
      r := Object(head);
      buffer[head] := Raw;
      assert Model().slots == before.DestroyAt(head).slots;
      IncrementHead();
    }

    /** Destroys the window slot by slot and goes back to slot 0; the overwrite mark stays. */
    method Clear()
      requires Valid()
      modifies this, buffer
      ensures Valid() && buffer == old(buffer) && capacity == old(capacity)
      ensures Model() == old(Model()).Cleared()
      ensures 0 < capacity ==> View(Model()) == old(View(Model()).Emptied())
    {
      if 0 < capacity {
        ViewClear(Model());
      }
      DestroyElements();
      head, tail, count, full := 0, 0, 0, false;
    }

    /** The loop of `Clear`. */
    method DestroyElements()
      requires Valid()
      modifies buffer
      ensures Model().slots == old(Model()).DestroyedUpTo(count)
    {
      ghost var before := Model();
      assert before.DestroyedUpTo(0) == before.slots;
      var i := 0;
      while i < count
        invariant i <= count
        invariant Model().slots == before.DestroyedUpTo(i)
      {
        DestroyNext(before, i);
        var slot := SlotAt(i);
        buffer[slot] := Raw;
        assert Model().slots == before.DestroyedUpTo(i)[slot := Raw];
        i := i + 1;
      }
    }

    /** The slot `offset` places after the head, by the machine's sum. */
    method SlotAt(offset: nat) returns (slot: nat)
      requires Valid() && offset < capacity
      ensures slot == SlotIndex(head, offset, capacity)
    {
      SlotIndexIsMachine(head, offset, capacity);
      slot := Wrapped(head + offset) % capacity;
    }

    // Reads

    /** The object in slot `at`, if there is one. */
    function Object(at: nat): (r: Result<T>)
      requires Valid()
      reads this, buffer
      ensures r == Model().Peek(at)
    {
      if buffer != null && at < buffer.Length && buffer[at].Live? then Item(buffer[at].v) else Undefined
    }

    method Front() returns (r: Result<T>)
      requires Valid()
      ensures r == Model().Ask(RingModel.Front)
    {
      if Empty() {
        return Throws(EmptyBuffer);
      }
      r := Object(head);
    }

    method Back() returns (r: Result<T>)
      requires Valid()
      ensures r == Model().Ask(RingModel.Back)
      ensures 0 < count ==> r == View(Model()).ReadBack()
    {
      if 0 < count {
        ViewBack(Model());
      }
      if Empty() {
        return Throws(EmptyBuffer);
      }
      if justOverwrote {
        r := Object(overwritePosition);
      } else {
        r := Object(PreviousIndex(tail, capacity));
      }
    }

    method At(index: nat) returns (r: Result<T>)
      requires Valid()
      ensures r == Model().Ask(RingModel.At(index))
    {
      if index >= count {
        return Throws(OutOfRange);
      }
      var slot := SlotAt(index);
      r := Object(slot);
    }

    function Size(): nat
      reads this
    {
      count
    }

    predicate Empty()
      reads this
    {
      count == 0
    }

    /** The free slots: what can be inserted before the first overwrite. */
    function Available(): (n: nat)
      requires Valid()
      reads this, buffer
      ensures n + count == capacity && (n == 0 <==> full || capacity == 0)
    {
      if full then 0 else capacity - count
    }

    method Inquire(q: Query) returns (r: Result<T>)
      requires Valid()
      ensures r == Model().Ask(q)
    {
      match q
      case Size => r := Number(Size());
      case Capacity => r := Number(capacity);
      case Empty => r := Truth(Empty());
      case Full => r := Truth(full);
      case Available => r := Number(Available());
      case Front => r := Front();
      case Back => r := Back();
      case At(index) => r := At(index);
    }

    /** Any one operation. */
    method Execute(op: Op<T>) returns (r: Result<T>)
      requires Valid() && 0 < capacity
      modifies this, buffer
      ensures Valid() && buffer == old(buffer) && capacity == old(capacity)
      ensures Model() == old(Model()).Next(op) && r == old(Model()).Answer(op)
    {
      r := Done;
      match op
      case Push(x) => PushBack(x);
      case Emplace(x) => EmplaceBack(x);
      case Pop => r := PopFront();
      case Clear => Clear();
      case Read(q) => r := Inquire(q);
    }

    // Copying and moving

    constructor Copy(other: RingBuffer<T>)
      requires other.Valid()
      ensures Valid() && fresh(buffer)
      ensures Model() == CopyOf(other.Model(), 0)
    {
      capacity := other.capacity;
      buffer := new Slot<T>[other.capacity](_ => Raw);
      head, tail, count, full := other.head, other.tail, other.count, other.full;
      justOverwrote, overwritePosition := false, 0;
      new;
      CopyObjects(other);
    }

    /** The loop of both copies. */
    method CopyObjects(other: RingBuffer<T>)
      requires other != this && other.Valid() && buffer != null && buffer != other.buffer
      requires buffer.Length == |other.Model().slots| && count == other.count
      requires buffer[..] == CopiedUpTo(other.Model(), 0)
      modifies buffer
      ensures buffer[..] == CopiedUpTo(other.Model(), other.count)
    {
      var i := 0;
      while i < count
        invariant i <= count
        invariant buffer[..] == CopiedUpTo(other.Model(), i)
      {
        buffer[i] := other.buffer[i];
        assert buffer[..] == CopiedUpTo(other.Model(), i)[i := other.Model().slots[i]];
        assert buffer[..] == CopiedUpTo(other.Model(), i + 1);
        i := i + 1;
      }
    }

    /** Copy assignment, also onto itself. The old elements are destroyed, the source is unchanged and
        shares no storage with the result. */
    method CopyAssign(other: RingBuffer<T>)
      requires Valid() && other.Valid()
      requires other != this && buffer != null ==> buffer != other.buffer
      modifies this, buffer
      ensures Valid() && other.Valid()
      ensures other == this ==> buffer == old(buffer) && Model() == old(Model())
      ensures other != this ==>
                && fresh(buffer)
                && Model() == CopyOf(other.Model(), old(overwritePosition))
                && other.Model() == old(other.Model())
      ensures other != this && old(buffer) != null ==>
                old(buffer)[..] == old(Model().Cleared().slots)
    {
      if this == other {
        return;
      }
      Clear();
      Adopt(other);
      CopyObjects(other);
      justOverwrote := false;
    }

    /** Fresh storage and the source's indices: what assignment does between clearing and copying. */
    method Adopt(other: RingBuffer<T>)
      requires other != this && other.Valid()
      modifies this
      ensures fresh(buffer) && capacity == other.capacity
      ensures Model() == CopyOf(other.Model(), old(overwritePosition)).(slots := CopiedUpTo(other.Model(), 0),
                                                                      justOverwrote := old(justOverwrote))
    {
      capacity := other.capacity;
      buffer := new Slot<T>[capacity](_ => Raw);
      head, tail, count, full := other.head, other.tail, other.count, other.full;
      assert buffer[..] == CopiedUpTo(other.Model(), 0);
    }

    constructor Move(other: RingBuffer<T>)
      requires other.Valid()
      modifies other
      ensures Valid() && other.Valid()
      ensures buffer == old(other.buffer) && other.buffer == null
      ensures Model() == MoveOf(old(other.Model()), false, 0)
      ensures other.Model() == MovedFrom(old(other.Model()))
    {
      capacity, buffer := other.capacity, other.buffer;
      head, tail, count, full := other.head, other.tail, other.count, other.full;
      justOverwrote, overwritePosition := false, 0;
      new;
      other.Release();
    }

    /** What both moves do to their source. */
    method Release()
      modifies this
      ensures Valid() && buffer == null
      ensures Model() == Ring([], 0, 0, 0, false, old(justOverwrote), old(overwritePosition))
    {
      buffer, capacity, head, tail, count, full := null, 0, 0, 0, 0, false;
    }

    /** Move assignment, also onto itself. The old elements are destroyed once, the storage changes
        owner, and this buffer keeps its own overwrite mark. */
    method MoveAssign(other: RingBuffer<T>)
      requires Valid() && other.Valid()
      requires other != this && buffer != null ==> buffer != other.buffer
      modifies this, buffer, other
      ensures Valid() && other.Valid()
      ensures other == this ==> buffer == old(buffer) && Model() == old(Model())
      ensures other != this ==>
                && buffer == old(other.buffer) && other.buffer == null
                && Model() == MoveOf(old(other.Model()), old(justOverwrote), old(overwritePosition))
                && other.Model() == MovedFrom(old(other.Model()))
      ensures other != this && old(buffer) != null ==>
                old(buffer)[..] == old(Model().Cleared().slots)
    {
      if this == other {
        return;
      }
      ghost var source := other.Model();
      Clear();
      assert other.Model() == source;
      capacity, buffer := other.capacity, other.buffer;
      head, tail, count, full := other.head, other.tail, other.count, other.full;
      other.Release();
    }

    // Iteration

    method Begin() returns (it: Iterator<T>)
      ensures fresh(it) && it.ring == this && it.index == 0 && it.size == count
    {
      it := new Iterator(this, 0);
    }

    method End() returns (it: Iterator<T>)
      ensures fresh(it) && it.ring == this && it.index == count && it.size == count
    {
      it := new Iterator(this, count);
    }

    /** The range-based `for` over the buffer: from `begin` to `end`, it takes exactly `count` steps,
        never leaves the range, and visits what `operator[]` gives, in order; so on a buffer that
        holds `items` it visits exactly these. */
    method Traverse() returns (visited: seq<Result<T>>)
      requires Valid()
      ensures |visited| == count
      ensures forall i: nat | i < count :: visited[i] == Model().Ask(RingModel.At(i)) != Throws(OutOfRange)
      ensures forall items | capacity != 0 && Holds(Model(), items) :: visited == SlidingWindow.Given(items)
    {
      var it := Begin();
      var end := End();
      visited := [];
      while !it.Equals(end)
        invariant fresh(it) && fresh(end) && it != end
        invariant it.ring == this && end.ring == this && end.index == count
        invariant |visited| == it.index <= count
        invariant forall i: nat | i < it.index :: visited[i] == Model().Ask(RingModel.At(i)) != Throws(OutOfRange)
        decreases count - it.index
      {
        var r := it.Dereference();
        visited := visited + [r];
        it.Increment();
      }
      forall items | capacity != 0 && Holds(Model(), items) ensures visited == SlidingWindow.Given(items) {
        VisitedItems(Model(), items, visited);
      }
    }
  }

  /** The iterator: a buffer and an index. */
  class Iterator<T> {
    const ring: RingBuffer<T>
    const size: nat
    var index: nat

    constructor (ring: RingBuffer<T>, index: nat)
      ensures this.ring == ring && this.index == index && size == ring.count
    {
      this.ring := ring;
      this.index := index;
      size := ring.count;
    }

    method Dereference() returns (r: Result<T>)
      requires ring.Valid()
      ensures r == ring.Model().Ask(RingModel.At(index))
    {
      r := ring.At(index);
    }

    method Increment()
      modifies `index
      ensures index == old(index) + 1
    {
      index := index + 1;
    }

    method PostIncrement() returns (before: Iterator<T>)
      modifies `index
      ensures fresh(before) && before.ring == ring && before.index == old(index)
      ensures index == old(index) + 1
    {
      before := new Iterator(ring, index);
      Increment();
    }

    predicate Equals(other: Iterator<T>)
      reads this, other
    {
      ring == other.ring && index == other.index
    }
  }

  /** A full ring after an insertion: every element moved up by one, and `x` follows. */
  ghost predicate MovedUp<T>(was: Ring<T>, now: Ring<T>, x: T) {
    && was.Usable() && was.full && now.Usable() && now.count == was.count
    && now.Ask(RingModel.At(was.count - 1)) == Item(x)
    && forall i: nat | i + 1 < was.count :: now.Ask(RingModel.At(i)) == was.Ask(RingModel.At(i + 1))
  }

  /** A ring with room after an insertion: one more element, and `x` behind the place after the last. */
  ghost predicate PutBehind<T>(was: Ring<T>, now: Ring<T>, x: T) {
    && was.Usable() && !was.full && now.Usable() && now.count == was.count + 1
    && var place := View(was).Behind(was.count);
       && (place <= was.count ==> now.Ask(RingModel.At(place)) == Item(x))
       && forall i: nat | i < was.count && i != place :: now.Ask(RingModel.At(i)) == was.Ask(RingModel.At(i))
  }

  lemma InsertedAnywhere<T>(r: Ring<T>, x: T)
    requires r.Usable()
    ensures View(r.PushBack(x)) == View(r).Inserted(x)
    ensures r.PushBack(x).Ask(RingModel.Back) == Item(x)
    ensures MovedUp(r, r.PushBack(x), x) || PutBehind(r, r.PushBack(x), x)
  {
    ViewNext(r, Push(x));
    assert r.Next(Push(x)) == r.PushBack(x);
    if r.full {
      OverwriteMovesUp(r, Push(x));
    } else {
      InsertGoesBehind(r, Push(x));
    }
  }

  lemma PushedIff<T>(r: Ring<T>, x: T)
    requires r.Usable() && r.Exact()
    ensures |Items(r)| <= |r.slots|
    ensures r.PushBack(x).Window() == Lives(Add(|r.slots|, Items(r), x)) <==> r.full || r.Aligned()
  {
    assert |Items(r)| == |r.Window()| == r.count;
    if r.full {
      OverwriteSlides(r, Items(r), Push(x));
    } else {
      AppendsIffAligned(r, Items(r), Push(x));
    }
    assert r.Next(Push(x)) == r.PushBack(x);
  }

  lemma VisitedItems<T>(r: Ring<T>, items: seq<T>, visited: seq<Result<T>>)
    requires Holds(r, items) && |visited| == r.count
    requires forall i: nat | i < r.count :: visited[i] == r.Ask(RingModel.At(i))
    ensures visited == SlidingWindow.Given(items)
  {
    assert |items| == |r.Window()|;
    forall i: nat | i < r.count ensures visited[i] == Item(items[i]) {
      PeekHeld(r, items, i);
    }
  }

  /** The operations of a shared script meant for one of two buffers. */
  function OpsFor<T>(first: bool, script: seq<(bool, Op<T>)>): seq<Op<T>>
    decreases |script|
  {
    if script == [] then [] else
      var last, before := script[|script| - 1], OpsFor(first, script[..|script| - 1]);
      if last.0 == first then before + [last.1] else before
  }

  lemma OpsForNext<T>(first: bool, script: seq<(bool, Op<T>)>, i: nat)
    requires i < |script|
    ensures OpsFor(first, script[..i + 1]) ==
            OpsFor(first, script[..i]) + if script[i].0 == first then [script[i].1] else []
  {
    assert script[..i + 1][..i] == script[..i];
  }

  /** The buffer has gone through exactly `ops` from the state `was`, with these results. */
  ghost predicate HasRun<T>(b: RingBuffer<T>, was: Ring<T>, ops: seq<Op<T>>, results: seq<Result<T>>)
    reads b, b.buffer
  {
    && b.Valid() && 0 < b.capacity && was.Usable()
    && b.Model() == After(was, ops) && results == Answers(was, ops)
  }

  method ExecuteNext<T>(b: RingBuffer<T>, ghost was: Ring<T>, ghost ops: seq<Op<T>>, results: seq<Result<T>>,
                        op: Op<T>)
    returns (after: seq<Result<T>>)
    requires HasRun(b, was, ops, results)
    modifies b, b.buffer
    ensures b.buffer == old(b.buffer) && HasRun(b, was, ops + [op], after)
  {
    OneMoreOp(was, ops, op);
    var r := b.Execute(op);
    after := results + [r];
  }

  /** Two buffers with separate storage under any interleaved operations: each goes through exactly its
      own operations and returns what these return, as if the other did not exist. */
  method Interleave<T>(a: RingBuffer<T>, b: RingBuffer<T>, script: seq<(bool, Op<T>)>)
    returns (resultsA: seq<Result<T>>, resultsB: seq<Result<T>>)
    requires a.Valid() && b.Valid() && 0 < a.capacity && 0 < b.capacity
    requires a != b && a.buffer != b.buffer
    modifies a, a.buffer, b, b.buffer
    ensures HasRun(a, old(a.Model()), OpsFor(true, script), resultsA)
    ensures HasRun(b, old(b.Model()), OpsFor(false, script), resultsB)
  {
    ghost var wasA, wasB, opsA, opsB := a.Model(), b.Model(), OpsFor(true, script[..0]), OpsFor(false, script[..0]);
    resultsA, resultsB := [], [];
    var i := 0;
    while i < |script|
      invariant i <= |script|
      invariant a.buffer == old(a.buffer) && b.buffer == old(b.buffer)
      invariant opsA == OpsFor(true, script[..i]) && opsB == OpsFor(false, script[..i])
      invariant HasRun(a, wasA, opsA, resultsA) && HasRun(b, wasB, opsB, resultsB)
    {
      OpsForNext(true, script, i);
      OpsForNext(false, script, i);
      if script[i].0 {
        resultsA := ExecuteNext(a, wasA, opsA, resultsA, script[i].1);
        opsA := opsA + [script[i].1];
      } else {
        resultsB := ExecuteNext(b, wasB, opsB, resultsB, script[i].1);
        opsB := opsB + [script[i].1];
      }
      i := i + 1;
    }
    assert script[..i] == script;
  }

  // ---------------------------------------------------------------------------------------------
  // Exchanging
  // ---------------------------------------------------------------------------------------------

  /** `std::swap`: one move construction and two move assignments. Contents and storage change sides, and
      each buffer keeps its own overwrite mark; so afterwards `back` reads the newest slot exactly when
      that mark names it, or there is none and the elements came with their tail at their end. */
  method Swap<T>(a: RingBuffer<T>, b: RingBuffer<T>)
    requires a.Valid() && b.Valid() && a != b && (a.buffer != null ==> a.buffer != b.buffer)
    modifies a, a.buffer, b, b.buffer
    ensures a.Valid() && b.Valid() && a.buffer == old(b.buffer) && b.buffer == old(a.buffer)
    ensures Exchanged(old(a.Model()), old(b.Model()), a.Model())
    ensures Exchanged(old(b.Model()), old(a.Model()), b.Model())
  {
    ghost var wasA, wasB := a.Model(), b.Model();
    ThreeMoves(a, b);
    ExchangeIs(wasA, wasB, a.Model());
    ExchangeIs(wasB, wasA, b.Model());
  }

  method ThreeMoves<T>(a: RingBuffer<T>, b: RingBuffer<T>)
    requires a.Valid() && b.Valid() && a != b && (a.buffer != null ==> a.buffer != b.buffer)
    modifies a, a.buffer, b, b.buffer
    ensures a.Valid() && b.Valid() && a.buffer == old(b.buffer) && b.buffer == old(a.buffer)
    ensures a.Model() == MoveOf(old(b.Model()), old(a.justOverwrote), old(a.overwritePosition))
    ensures b.Model() == MoveOf(old(a.Model()), old(b.justOverwrote), old(b.overwritePosition))
  {
    var t := new RingBuffer.Move(a);
    a.MoveAssign(b);
    b.MoveAssign(t);
  }

  /** What `from` held, under the mark of `into`. */
  ghost predicate Exchanged<T>(into: Ring<T>, from: Ring<T>, now: Ring<T>) {
    && from.WellFormed() && now.WellFormed()
    && now == from.(justOverwrote := into.justOverwrote, overwritePosition := into.overwritePosition)
    && (0 < from.count ==>
          (now.BackIndex() == SlotIndex(from.head, from.count - 1, |from.slots|) <==>
             if into.justOverwrote then into.overwritePosition == SlotIndex(from.head, from.count - 1, |from.slots|)
             else from.Aligned()))
  }

  lemma ExchangeIs<T>(into: Ring<T>, from: Ring<T>, now: Ring<T>)
    requires from.WellFormed() && now == MoveOf(from, into.justOverwrote, into.overwritePosition)
    ensures Exchanged(into, from, now)
  {
  }

  /** Exchanging twice changes nothing, marks included. */
  method SwapTwice<T>(a: RingBuffer<T>, b: RingBuffer<T>)
    requires a.Valid() && b.Valid() && a != b && (a.buffer != null ==> a.buffer != b.buffer)
    modifies a, a.buffer, b, b.buffer
    ensures a.Valid() && b.Valid() && a.buffer == old(a.buffer) && b.buffer == old(b.buffer)
    ensures a.Model() == old(a.Model()) && b.Model() == old(b.Model())
  {
    Swap(a, b);
    Swap(a, b);
  }

  /** A copy and its source do not see each other's later operations, whatever they are. */
  method CopiesAreIndependent<T>(source: RingBuffer<T>, script: seq<(bool, Op<T>)>)
    returns (copy: RingBuffer<T>, copyResults: seq<Result<T>>, sourceResults: seq<Result<T>>)
    requires source.Valid() && 0 < source.capacity
    modifies source, source.buffer
    ensures fresh(copy) && HasRun(copy, CopyOf(old(source.Model()), 0), OpsFor(true, script), copyResults)
    ensures HasRun(source, old(source.Model()), OpsFor(false, script), sourceResults)
  {
    copy := new RingBuffer.Copy(source);
    copyResults, sourceResults := Interleave(copy, source, script);
  }

  /** Neither do the two sides of a copy assignment. */
  method AssignedIsIndependent<T>(target: RingBuffer<T>, source: RingBuffer<T>, script: seq<(bool, Op<T>)>)
    returns (targetResults: seq<Result<T>>, sourceResults: seq<Result<T>>)
    requires target.Valid() && source.Valid() && 0 < source.capacity
    requires target != source && target.buffer != source.buffer
    modifies target, target.buffer, source, source.buffer
    ensures HasRun(target, CopyOf(old(source.Model()), old(target.overwritePosition)), OpsFor(true, script),
                   targetResults)
    ensures HasRun(source, old(source.Model()), OpsFor(false, script), sourceResults)
  {
    target.CopyAssign(source);
    targetResults, sourceResults := Interleave(target, source, script);
  }
}
