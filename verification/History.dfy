/** Histories of the wrapper and what makes them linearizable. */
module Histories {
  import opened RingModel
  import opened BoundedQueue
  import opened Monitor

  // The sequential queue that the wrapper stands for

  function ItemsAfterCall<T>(capacity: nat, items: seq<T>, call: Call<T>): (next: seq<T>)
    requires |items| <= capacity
    ensures |next| <= capacity
  {
    if call.Adds() then (if |items| < capacity then items + [call.x] else items)
    else if call.ClearAll? then []
    else if call.Removes() && items != [] then items[1..]
    else items
  }

  function AnswerOfCall<T>(capacity: nat, items: seq<T>, call: Call<T>): Result<T>
    requires |items| <= capacity
  {
    match call
    case PushBack(_) => Done
    case EmplaceBack(_) => Done
    case TryPushBack(_) => Truth(|items| < capacity)
    case PushBackTimed(_) => Truth(|items| < capacity)
    case PopFront => if items == [] then Throws(EmptyBuffer) else Item(items[0])
    case TryPopFront => if items == [] then Nothing else Item(items[0])
    case PopFrontTimed => if items == [] then Nothing else Item(items[0])
    case ClearAll => Done
    case WaitNotEmpty => Truth(items != [])
    case WaitNotFull => Truth(|items| < capacity)
    case Inspect(q) => AskItems(capacity, items, q)
  }

  /** The call may take effect here with this result: a blocking insertion only with room. Not
      strictly, a removal may also throw on an empty queue where it should have returned nothing. */
  predicate Permitted<T(==)>(strict: bool, capacity: nat, items: seq<T>, call: Call<T>, result: Result<T>)
    requires |items| <= capacity
  {
    && (call.PushBack? || call.EmplaceBack? ==> |items| < capacity)
    && (|| result == AnswerOfCall(capacity, items, call)
        || (!strict && call.Removes() && items == [] && result == Throws(EmptyBuffer)))
  }

  /** The queue's items after the calls of a history took effect in its order. */
  function Contents<T>(capacity: nat, h: seq<Event<T>>): (items: seq<T>)
    ensures |items| <= capacity
    decreases |h|
  {
    if h == [] then [] else
      var last, before := h[|h| - 1], Contents(capacity, h[..|h| - 1]);
      if last.Took? then ItemsAfterCall(capacity, before, last.call) else before
  }

  /** Every call took effect as the sequential queue permits. */
  predicate Legal<T(==)>(strict: bool, capacity: nat, h: seq<Event<T>>)
    decreases |h|
  {
    h != [] ==>
      var last, before := h[|h| - 1], h[..|h| - 1];
      && Legal(strict, capacity, before)
      && (last.Took? ==> Permitted(strict, capacity, Contents(capacity, before), last.call, last.result))
  }

  // One thread's view

  datatype Phase<+T> = Resting | Pending(call: Call<T>) | Settled(call: Call<T>, result: Result<T>)

  /** Where thread `t` stands after a history. */
  function PhaseOf<T>(h: seq<Event<T>>, t: nat): Phase<T>
    decreases |h|
  {
    if h == [] then Resting else
      var last := h[|h| - 1];
      if last.thread != t then PhaseOf(h[..|h| - 1], t)
      else match last
           case Called(_, call) => Pending(call)
           case Took(_, call, result) => Settled(call, result)
           case Returned(_, _, _) => Resting
  }

  predicate Follows<T(==)>(phase: Phase<T>, e: Event<T>) {
    match e
    case Called(_, _) => phase == Resting
    case Took(_, call, _) => phase == Pending(call)
    case Returned(_, call, result) => phase == Settled(call, result)
  }

  /** Each thread's events are calls that take effect once, between call and return, and return what
      they took effect with. */
  predicate Bracketed<T(==)>(h: seq<Event<T>>)
    decreases |h|
  {
    h != [] ==>
      var last, before := h[|h| - 1], h[..|h| - 1];
      Bracketed(before) && Follows(PhaseOf(before, last.thread), last)
  }

  /** The history is a run of the sequential queue, with its own effect points as evidence. */
  predicate Sequential<T(==)>(capacity: nat, h: seq<Event<T>>) {
    Legal(true, capacity, h) && Bracketed(h)
  }

  /** What callers see of a history: the calls and the returns. */
  function External<T>(h: seq<Event<T>>): (outside: seq<Event<T>>)
    decreases |h|
  {
    if h == [] then [] else
      var last, before := h[|h| - 1], External(h[..|h| - 1]);
      if last.Took? then before else before + [last]
  }

  /** Some choice of effect points makes the calls and returns a run of the sequential queue. A call
      that has not returned may have taken effect or not. */
  ghost predicate Linearizable<T(!new)>(capacity: nat, outside: seq<Event<T>>) {
    exists h: seq<Event<T>> :: Sequential(capacity, h) && External(h) == outside
  }

  // ---------------------------------------------------------------------------------------------
  // What follows for every bracketed or legal history
  // ---------------------------------------------------------------------------------------------

  lemma {:induction false} EarlierEvent<T>(h: seq<Event<T>>, t: nat) returns (i: nat)
    requires Bracketed(h) && PhaseOf(h, t) != Resting
    ensures i < |h| && h[i].thread == t
    ensures PhaseOf(h, t).Pending? ==> h[i] == Called(t, PhaseOf(h, t).call)
    ensures PhaseOf(h, t).Settled? ==> h[i] == Took(t, PhaseOf(h, t).call, PhaseOf(h, t).result)
    ensures Bracketed(h[..i]) && Follows(PhaseOf(h[..i], t), h[i])
    ensures forall k | i < k < |h| :: h[k].thread != t
    decreases |h|
  {
    var n := |h| - 1;
    if h[n].thread == t {
      i := n;
    } else {
      i := EarlierEvent(h[..n], t);
      assert h[..n][..i] == h[..i];
    }
  }

  lemma {:induction false} BracketedPrefix<T>(h: seq<Event<T>>, j: nat)
    requires Bracketed(h) && j < |h|
    ensures Bracketed(h[..j]) && Follows(PhaseOf(h[..j], h[j].thread), h[j])
    decreases |h|
  {
    if j < |h| - 1 {
      BracketedPrefix(h[..|h| - 1], j);
      assert h[..|h| - 1][..j] == h[..j];
    }
  }

  /** Every call that has returned took effect at one moment between its call and its return, with
      the result it returned; so calls that do not overlap take effect in their real order. */
  lemma TookEffectInside<T>(h: seq<Event<T>>, j: nat) returns (i: nat, k: nat)
    requires Bracketed(h) && j < |h| && h[j].Returned?
    ensures i < k < j
    ensures h[i] == Called(h[j].thread, h[j].call)
    ensures h[k] == Took(h[j].thread, h[j].call, h[j].result)
    ensures forall m | i < m < j && m != k :: h[m].thread != h[j].thread
  {
    BracketedPrefix(h, j);
    k := EarlierEvent(h[..j], h[j].thread);
    assert h[..j][..k] == h[..k];
    i := EarlierEvent(h[..k], h[j].thread);
  }

  /** The values whose insertion was reported as done, in order. */
  function Accepted<T>(h: seq<Event<T>>): seq<T>
    decreases |h|
  {
    if h == [] then [] else
      var last, before := h[|h| - 1], Accepted(h[..|h| - 1]);
      if last.Took? && last.call.Adds() && last.result != Truth(false) then before + [last.call.x] else before
  }

  /** The values handed out by removals or dropped by clears, in order. */
  function Removed<T>(capacity: nat, h: seq<Event<T>>): seq<T>
    decreases |h|
  {
    if h == [] then [] else
      var last, before := h[|h| - 1], Removed(capacity, h[..|h| - 1]);
      if last.Took? && last.call.ClearAll? then before + Contents(capacity, h[..|h| - 1])
      else if last.Took? && last.call.Removes() && last.result.Item? then before + [last.result.v]
      else before
  }

  /** Nothing is lost, duplicated or reordered: what was accepted is what was removed followed by
      what is still there. */
  lemma {:induction false} Conservation<T>(strict: bool, capacity: nat, h: seq<Event<T>>)
    requires Legal(strict, capacity, h)
    ensures Accepted(h) == Removed(capacity, h) + Contents(capacity, h)
    decreases |h|
  {
    if h != [] {
      var last, before := h[|h| - 1], h[..|h| - 1];
      Conservation(strict, capacity, before);
      var items := Contents(capacity, before);
      if last.Took? && last.call.Removes() && !last.call.ClearAll? && items != [] {
        assert items == [items[0]] + items[1..];
      }
    }
  }

  // ---------------------------------------------------------------------------------------------
  // What callers can tell from calls and returns alone
  // ---------------------------------------------------------------------------------------------

  lemma {:induction false} ExternalHas<T>(h: seq<Event<T>>, e: Event<T>)
    requires e in External(h)
    ensures e in h && !e.Took?
    decreases |h|
  {
    if e in External(h[..|h| - 1]) {
      ExternalHas(h[..|h| - 1], e);
    }
  }

  lemma {:induction false} LegalPrefix<T>(strict: bool, capacity: nat, h: seq<Event<T>>, j: nat)
    requires Legal(strict, capacity, h) && j < |h| && h[j].Took?
    ensures Permitted(strict, capacity, Contents(capacity, h[..j]), h[j].call, h[j].result)
    decreases |h|
  {
    if j < |h| - 1 {
      LegalPrefix(strict, capacity, h[..|h| - 1], j);
      assert h[..|h| - 1][..j] == h[..j];
    }
  }

  /** In a run of the sequential queue every call returned what the queue answers at some point between
      its call and its return; so no timed removal threw. */
  lemma TimedRemovalNeverThrows<T>(capacity: nat, h: seq<Event<T>>, j: nat)
    requires Sequential(capacity, h) && j < |h| && h[j].Returned? && h[j].call.PopFrontTimed?
    ensures !h[j].result.Throws?
  {
    var i, k := TookEffectInside(h, j);
    LegalPrefix(true, capacity, h, k);
  }

  predicate AcceptedWith<T(==)>(call: Call<T>, result: Result<T>) {
    call.Adds() && result != Truth(false)
  }

  /** The insertions that returned as done. */
  function ReturnedAdds<T(==)>(h: seq<Event<T>>): nat
    decreases |h|
  {
    if h == [] then 0 else
      var last := h[|h| - 1];
      ReturnedAdds(h[..|h| - 1]) + if last.Returned? && AcceptedWith(last.call, last.result) then 1 else 0
  }

  predicate NoRemovalCalled<T>(h: seq<Event<T>>)
    decreases |h|
  {
    h != [] ==> NoRemovalCalled(h[..|h| - 1]) && (h[|h| - 1].Called? ==> !h[|h| - 1].call.Removes())
  }

  lemma OneMoreReturn<T>(h: seq<Event<T>>, e: Event<T>)
    ensures NoRemovalCalled(h + [e]) <==> NoRemovalCalled(h) && (e.Called? ==> !e.call.Removes())
    ensures ReturnedAdds(h + [e]) ==
            ReturnedAdds(h) + if e.Returned? && AcceptedWith(e.call, e.result) then 1 else 0
  {
  }

  lemma {:induction false} ExternalCounts<T>(h: seq<Event<T>>)
    ensures ReturnedAdds(External(h)) == ReturnedAdds(h)
    ensures NoRemovalCalled(External(h)) <==> NoRemovalCalled(h)
    decreases |h|
  {
    if h != [] {
      var last, before := h[|h| - 1], h[..|h| - 1];
      ExternalCounts(before);
      OneMoreReturn(before, last);
      assert before + [last] == h;
      if !last.Took? {
        OneMoreReturn(External(before), last);
      }
    }
  }

  /** The threads whose insertion was accepted and has not returned. */
  function OpenAdds<T(==)>(h: seq<Event<T>>): set<nat>
    decreases |h|
  {
    if h == [] then {} else
      var last, before := h[|h| - 1], OpenAdds(h[..|h| - 1]);
      if last.Took? && AcceptedWith(last.call, last.result) then before + {last.thread}
      else if last.Returned? then before - {last.thread}
      else before
  }

  lemma {:induction false} OpenAddsAre<T>(h: seq<Event<T>>, t: nat)
    requires Bracketed(h)
    ensures t in OpenAdds(h) <==> PhaseOf(h, t).Settled? && AcceptedWith(PhaseOf(h, t).call, PhaseOf(h, t).result)
    decreases |h|
  {
    if h != [] {
      OpenAddsAre(h[..|h| - 1], t);
    }
  }

  /** Every accepted insertion has returned or is about to. */
  lemma {:induction false} AcceptedAreReturned<T>(h: seq<Event<T>>)
    requires Bracketed(h)
    ensures |Accepted(h)| == ReturnedAdds(h) + |OpenAdds(h)|
    decreases |h|
  {
    if h != [] {
      AcceptedAreReturned(h[..|h| - 1]);
      OpenAddsAre(h[..|h| - 1], h[|h| - 1].thread);
    }
  }

  lemma {:induction false} NoRemovalPending<T>(h: seq<Event<T>>, t: nat)
    requires Bracketed(h) && NoRemovalCalled(h)
    ensures PhaseOf(h, t).Pending? ==> !PhaseOf(h, t).call.Removes()
    decreases |h|
  {
    if h != [] {
      NoRemovalPending(h[..|h| - 1], t);
    }
  }

  lemma {:induction false} NothingRemoved<T>(capacity: nat, h: seq<Event<T>>)
    requires Bracketed(h) && NoRemovalCalled(h)
    ensures Removed(capacity, h) == []
    decreases |h|
  {
    if h != [] {
      NothingRemoved(capacity, h[..|h| - 1]);
      NoRemovalPending(h[..|h| - 1], h[|h| - 1].thread);
    }
  }

  /** In a linearizable history without removals at most `capacity` insertions return as done. */
  lemma AddsFit<T>(capacity: nat, h: seq<Event<T>>)
    requires Sequential(capacity, h) && NoRemovalCalled(External(h))
    ensures ReturnedAdds(External(h)) <= capacity
  {
    ExternalCounts(h);
    NothingRemoved(capacity, h);
    AcceptedAreReturned(h);
    Conservation(true, capacity, h);
  }
}
