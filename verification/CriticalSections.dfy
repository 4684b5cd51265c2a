/** The guards and buffer changes of the wrapper's calls, on the buffer that is updated in place. */
module CriticalSections {
  import opened RingModel
  import opened RingBuffers
  import opened Monitor
  import opened Calls

  /** The wrapper's state inside a critical section: the buffer it owns. */
  class RingBufferThreadSafe<T> {
    const ring: RingBuffer<T>

    ghost predicate Valid()
      reads this, ring, ring.buffer
    {
      ring.Valid() && 0 < ring.capacity
    }

    constructor (capacity: nat)
      requires 0 < capacity <= Indices.MAX_CAPACITY
      ensures Valid() && fresh(ring) && fresh(ring.buffer) && ring.Model() == New(capacity)
    {
      ring := new RingBuffer(capacity);
    }

    /** What a call decides under the mutex is the verdict of the protocol's guard: to wait exactly while
        what it waits for is missing and its time is not over; to go ahead exactly with what changes the
        buffer; and else to answer what the call promises. */
    method Decide(call: Call<T>, wake: Wake) returns (verdict: Verdict<T>)
      requires Valid()
      ensures verdict == Guard(ring.Model(), call, wake)
      ensures verdict.Wait? <==> !Ready(ring.Model(), call, wake)
      ensures verdict.Proceed? <==> GoesAhead(ring.Model(), call)
      ensures verdict.Answered? ==> verdict.result == Promised(ring.Model(), call).result
    {
      GuardMeans(ring.Model(), call, wake);
      match call {
        case PushBack(_) => verdict := if ring.full then Wait else Proceed;
        case EmplaceBack(_) => verdict := if ring.full then Wait else Proceed;
        case TryPushBack(_) => verdict := if ring.full then Answered(Truth(false)) else Proceed;
        case PushBackTimed(_) => verdict := Await(!ring.full, wake, Proceed, Truth(false));
        case PopFront => verdict := Proceed;
        case TryPopFront => verdict := if ring.Empty() then Answered(Nothing) else Proceed;
        case PopFrontTimed => verdict := Await(!ring.Empty(), wake, Proceed, Nothing);
        case ClearAll => verdict := Proceed;
        case WaitNotEmpty => verdict := Await(!ring.Empty(), wake, Answered(Truth(true)), Truth(false));
        case WaitNotFull => verdict := Await(!ring.full, wake, Answered(Truth(true)), Truth(false));
        case Inspect(q) =>
          var result := ring.Inquire(q);
          verdict := Answered(result);
      }
    }

    /** One round of a bounded wait: met, timed out, or to be waited for. */
    static function Await(met: bool, wake: Wake, then': Verdict<T>, late: Result<T>): Verdict<T> {
      if met then then' else if wake.TimedOut? then Answered(late) else Wait
    }

    /** What a call past its guard does to the buffer and returns is the protocol's mutation step. */
    method Perform(call: Call<T>) returns (result: Result<T>)
      requires Valid() && (call.Adds() || call.Removes())
      modifies ring, ring.buffer
      ensures Valid() && ring.buffer == old(ring.buffer)
      ensures ring.Model() == old(ring.Model()).Next(call.Operation())
      ensures result == call.Outcome(old(ring.Model()))
      ensures old(GoesAhead(ring.Model(), call)) ==> AsPromised(old(ring.Model()), call, ring.Model(), result)
    {
      ghost var before := ring.Model();
      if call.EmplaceBack? {
        ring.EmplaceBack(call.x);
        result := Done;
      } else if call.Adds() {
        ring.PushBack(call.x);
        result := if call.PushBack? then Done else Truth(true);
      } else if call.ClearAll? {
        ring.Clear();
        result := Done;
      } else {
        result := ring.PopFront();
      }
      OutcomeAsPromised(before, call);
    }
  }

  ghost predicate AsPromised<T>(was: Ring<T>, call: Call<T>, now: Ring<T>, result: Result<T>)
    requires was.Usable()
  {
    now == Promised(was, call).ring && result == Promised(was, call).result
  }

  lemma OutcomeAsPromised<T>(r: Ring<T>, call: Call<T>)
    requires r.Usable() && (call.Adds() || call.Removes())
    ensures GoesAhead(r, call) ==> AsPromised(r, call, r.Next(call.Operation()), call.Outcome(r))
  {
    if GoesAhead(r, call) {
      ChangeMeans(r, call);
    }
  }
}
