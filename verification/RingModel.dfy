/** The state of a ring buffer as a value, and what each operation does to it.

    The functions follow the code branch by branch, on every state: also on the states in which
    the tail has fallen out of step with the window. */
module RingModel {
  import opened Indices

  /** A place in the buffer: uninitialised storage, or an object. */
  datatype Slot<+T> = Raw | Live(v: T)

  datatype Error = EmptyBuffer | OutOfRange

  /** What a call hands back. `Undefined` stands for reading storage that holds no object. */
  datatype Result<+T> =
    | Done
    | Number(n: nat)
    | Truth(b: bool)
    | Item(v: T)
    | Nothing
    | Undefined
    | Throws(error: Error)

  datatype Query = Size | Capacity | Empty | Full | Available | Front | Back | At(index: nat)

  datatype Op<+T> = Push(x: T) | Emplace(x: T) | Pop | Clear | Read(q: Query) {
    predicate Adds() {
      Push? || Emplace?
    }
  }

  datatype Ring<+T> = Ring(
    slots: seq<Slot<T>>,
    head: nat,
    tail: nat,
    count: nat,
    full: bool,
    justOverwrote: bool,
    overwritePosition: nat)
  {
    /** Bounds and flags. A moved-from buffer has no slots and all its indices at zero. */
    predicate WellFormed() {
      && |slots| <= MAX_CAPACITY
      && count <= |slots|
      && if |slots| == 0 then head == tail == 0 && !full
         else head < |slots| && tail < |slots| && full == (count == |slots|)
    }

    /** Well formed and owning storage: what an insertion needs. */
    predicate Usable() {
      WellFormed() && 0 < |slots|
    }

    /** Slot `j` is one of the `count` slots from `head` on. */
    predicate InWindow(j: nat)
      requires Usable() && j < |slots|
    {
      Offset(head, j, |slots|) < count
    }

    /** The slots from `head` on that count as elements. */
    function Window(): (window: seq<Slot<T>>)
      requires WellFormed()
      ensures |window| == count
    {
      seq(count, i requires 0 <= i < count => slots[SlotIndex(head, i, |slots|)])
    }

    /** The place just past the window. */
    function End(): nat
      requires Usable()
    {
      SlotIndex(head, count, |slots|)
    }

    /** The tail is where the next element belongs. */
    predicate Aligned()
      requires Usable()
    {
      tail == End()
    }

    /** The slots holding objects are exactly the window. */
    ghost predicate Exact()
      requires Usable()
    {
      forall j: nat | j < |slots| :: slots[j].Live? <==> InWindow(j)
    }

    // Index updates

    function IncrementHead(): Ring<T>
      requires Usable()
    {
      this.(head := NextIndex(head, |slots|),
            full := false,
            count := if count > 0 then count - 1 else count,
            justOverwrote := false)
    }

    function OverwriteAdvanceHead(): Ring<T>
      requires Usable()
    {
      this.(overwritePosition := head,
            head := NextIndex(head, |slots|),
            justOverwrote := true)
    }

    function IncrementTail(): Ring<T>
      requires Usable()
    {
      var n := if full then count else count + 1;
      this.(tail := NextIndex(tail, |slots|),
            count := n,
            full := if full then full else n == |slots|,
            justOverwrote := false)
    }

    // Storage updates

    function Put(at: nat, x: T): Ring<T>
      requires at < |slots|
    {
      this.(slots := slots[at := Live(x)])
    }

    function DestroyAt(at: nat): Ring<T>
      requires at < |slots|
    {
      this.(slots := slots[at := Raw])
    }

    // Operations

    function PushBack(x: T): Ring<T>
      requires Usable()
    {
      if full then Put(head, x).OverwriteAdvanceHead() else Put(tail, x).IncrementTail()
    }

    function EmplaceBack(x: T): Ring<T>
      requires Usable()
    {
      if full then DestroyAt(head).Put(head, x).OverwriteAdvanceHead() else Put(tail, x).IncrementTail()
    }

    function PopFront(): Ring<T>
      requires WellFormed()
    {
      if count == 0 then this else DestroyAt(head).IncrementHead()
    }

    /** The slots after the first `n` slots of the window were destroyed. */
    function DestroyedUpTo(n: nat): (s: seq<Slot<T>>)
      requires WellFormed() && n <= count
      ensures |s| == |slots|
    {
      seq(|slots|, j requires 0 <= j < |slots| => if Offset(head, j, |slots|) < n then Raw else slots[j])
    }

    function Cleared(): Ring<T>
      requires WellFormed()
    {
      this.(slots := DestroyedUpTo(count), head := 0, tail := 0, count := 0, full := false)
    }

    /** Every operation keeps the bounds and the flags, aligned or not. */
    function Next(op: Op<T>): (next: Ring<T>)
      requires Usable()
      ensures next.Usable() && |next.slots| == |slots|
      ensures overwritePosition < |slots| ==> next.overwritePosition < |slots|
    {
      match op
      case Push(x) => PushBack(x)
      case Emplace(x) => EmplaceBack(x)
      case Pop => PopFront()
      case Clear => Cleared()
      case Read(_) => this
    }

    // Results

    function Peek(at: nat): Result<T> {
      if at < |slots| && slots[at].Live? then Item(slots[at].v) else Undefined
    }

    /** The slot that `back` reads. */
    function BackIndex(): nat
      requires Usable()
    {
      if justOverwrote then overwritePosition else PreviousIndex(tail, |slots|)
    }

    function Ask(q: Query): Result<T>
      requires WellFormed()
    {
      match q
      case Size => Number(count)
      case Capacity => Number(|slots|)
      case Empty => Truth(count == 0)
      case Full => Truth(full)
      case Available => Number(if full then 0 else |slots| - count)
      case Front => if count == 0 then Throws(EmptyBuffer) else Peek(head)
      case Back => if count == 0 then Throws(EmptyBuffer) else Peek(BackIndex())
      case At(i) => if i >= count then Throws(OutOfRange) else Peek(SlotIndex(head, i, |slots|))
    }

    function Answer(op: Op<T>): Result<T>
      requires WellFormed()
    {
      match op
      case Push(_) => Done
      case Emplace(_) => Done
      case Pop => if count == 0 then Throws(EmptyBuffer) else Peek(head)
      case Clear => Done
      case Read(q) => Ask(q)
    }
  }

  function New<T>(capacity: nat): (r: Ring<T>)
    requires 0 < capacity <= MAX_CAPACITY
    ensures r.Usable()
  {
    Ring(seq(capacity, _ => Raw), 0, 0, 0, false, false, 0)
  }

  /** One round of the clearing loop. */
  lemma DestroyNext<T>(r: Ring<T>, i: nat)
    requires r.Usable() && i < r.count
    ensures var slot := SlotIndex(r.head, i, |r.slots|);
            && r.DestroyedUpTo(i)[slot := Raw] == r.DestroyedUpTo(i + 1)
            && r.DestroyedUpTo(i)[slot] == r.slots[slot]
  {
  }

  /** The state after a run of operations. */
  function After<T>(r: Ring<T>, ops: seq<Op<T>>): (end: Ring<T>)
    requires r.Usable()
    ensures end.Usable() && |end.slots| == |r.slots|
    ensures r.overwritePosition < |r.slots| ==> end.overwritePosition < |r.slots|
    decreases |ops|
  {
    if ops == [] then r else After(r.Next(ops[0]), ops[1..])
  }

  /** What the calls of a run hand back, in order. */
  function Answers<T>(r: Ring<T>, ops: seq<Op<T>>): (answers: seq<Result<T>>)
    requires r.Usable()
    ensures |answers| == |ops|
    decreases |ops|
  {
    if ops == [] then [] else [r.Answer(ops[0])] + Answers(r.Next(ops[0]), ops[1..])
  }

  /** One more operation at the end of a run. */
  lemma {:induction false} OneMoreOp<T>(r: Ring<T>, ops: seq<Op<T>>, op: Op<T>)
    requires r.Usable()
    ensures After(r, ops + [op]) == After(r, ops).Next(op)
    ensures Answers(r, ops + [op]) == Answers(r, ops) + [After(r, ops).Answer(op)]
    decreases |ops|
  {
    if ops != [] {
      assert (ops + [op])[1..] == ops[1..] + [op];
      OneMoreOp(r.Next(ops[0]), ops[1..], op);
    }
  }
}
