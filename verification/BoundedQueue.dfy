/** The reference: a plain sequence that holds at most `capacity` items and loses its first item
    when one more is added. It knows nothing of slots, indices or flags. */
module BoundedQueue {
  import opened RingModel

  function Add<T>(capacity: nat, items: seq<T>, x: T): (longer: seq<T>)
    requires |items| <= capacity && 0 < capacity
    ensures |longer| <= capacity
  {
    if |items| == capacity then items[1..] + [x] else items + [x]
  }

  function NextItems<T>(capacity: nat, items: seq<T>, op: Op<T>): (next: seq<T>)
    requires |items| <= capacity && 0 < capacity
    ensures |next| <= capacity
  {
    match op
    case Push(x) => Add(capacity, items, x)
    case Emplace(x) => Add(capacity, items, x)
    case Pop => if items == [] then items else items[1..]
    case Clear => []
    case Read(_) => items
  }

  function AskItems<T>(capacity: nat, items: seq<T>, q: Query): Result<T>
    requires |items| <= capacity
  {
    match q
    case Size => Number(|items|)
    case Capacity => Number(capacity)
    case Empty => Truth(items == [])
    case Full => Truth(|items| == capacity)
    case Available => Number(capacity - |items|)
    case Front => if items == [] then Throws(EmptyBuffer) else Item(items[0])
    case Back => if items == [] then Throws(EmptyBuffer) else Item(items[|items| - 1])
    case At(i) => if i < |items| then Item(items[i]) else Throws(OutOfRange)
  }

  function AnswerItems<T>(capacity: nat, items: seq<T>, op: Op<T>): Result<T>
    requires |items| <= capacity
  {
    match op
    case Push(_) => Done
    case Emplace(_) => Done
    case Pop => if items == [] then Throws(EmptyBuffer) else Item(items[0])
    case Clear => Done
    case Read(q) => AskItems(capacity, items, q)
  }

  function ItemsAfter<T>(capacity: nat, items: seq<T>, ops: seq<Op<T>>): (end: seq<T>)
    requires |items| <= capacity && 0 < capacity
    ensures |end| <= capacity
    decreases |ops|
  {
    if ops == [] then items else ItemsAfter(capacity, NextItems(capacity, items, ops[0]), ops[1..])
  }

  function ItemsAnswers<T>(capacity: nat, items: seq<T>, ops: seq<Op<T>>): (answers: seq<Result<T>>)
    requires |items| <= capacity && 0 < capacity
    ensures |answers| == |ops|
    decreases |ops|
  {
    if ops == [] then []
    else [AnswerItems(capacity, items, ops[0])]
         + ItemsAnswers(capacity, NextItems(capacity, items, ops[0]), ops[1..])
  }

  /** The items as the slots of a window that holds nothing but them. */
  function Lives<T>(items: seq<T>): (window: seq<Slot<T>>)
    ensures |window| == |items|
  {
    seq(|items|, i requires 0 <= i < |items| => Live(items[i]))
  }
}
