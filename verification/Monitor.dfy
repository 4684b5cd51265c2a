/** The thread-safe wrapper as a protocol: one mutex, two condition variables, any number of threads.

    A state records the inner ring, the owner of the mutex and where every thread stands in its
    call. A step is one action of one thread: nothing is assumed about the order of threads. The
    timed calls test their guard under the mutex and change the buffer after releasing it; that
    change is taken as one action. */
module Monitor {
  import opened Indices
  import opened RingModel

  datatype Option<+T> = None | Some(value: T)

  datatype ConditionVariable = NotFull | NotEmpty

  datatype Kind =
    | KPushBack | KEmplaceBack | KTryPushBack | KPushBackTimed
    | KPopFront | KTryPopFront | KPopFrontTimed | KClearAll
    | KWaitNotEmpty | KWaitNotFull | KInspect

  const ADDERS: set<Kind> := {KPushBack, KEmplaceBack, KTryPushBack, KPushBackTimed}
  const REMOVERS: set<Kind> := {KPopFront, KTryPopFront, KPopFrontTimed, KClearAll}

  datatype Call<+T> =
    | PushBack(x: T) | EmplaceBack(x: T) | TryPushBack(x: T) | PushBackTimed(x: T)
    | PopFront | TryPopFront | PopFrontTimed | ClearAll
    | WaitNotEmpty | WaitNotFull | Inspect(q: Query)
  {
    function Kind(): Kind {
      match this
      case PushBack(_) => KPushBack
      case EmplaceBack(_) => KEmplaceBack
      case TryPushBack(_) => KTryPushBack
      case PushBackTimed(_) => KPushBackTimed
      case PopFront => KPopFront
      case TryPopFront => KTryPopFront
      case PopFrontTimed => KPopFrontTimed
      case ClearAll => KClearAll
      case WaitNotEmpty => KWaitNotEmpty
      case WaitNotFull => KWaitNotFull
      case Inspect(_) => KInspect
    }

    predicate Adds() {
      PushBack? || EmplaceBack? || TryPushBack? || PushBackTimed?
    }

    predicate Removes() {
      PopFront? || TryPopFront? || PopFrontTimed? || ClearAll?
    }

    /** Waits and uses nothing up. */
    predicate Watches() {
      WaitNotEmpty? || WaitNotFull?
    }

    /** Changes the buffer after releasing the mutex. */
    predicate Timed() {
      PushBackTimed? || PopFrontTimed?
    }

    predicate CanWait() {
      PushBack? || EmplaceBack? || Timed() || Watches()
    }

    predicate CanExpire() {
      Timed() || Watches()
    }

    /** The condition variable a waiting call sleeps on. */
    function WaitsOn(): ConditionVariable {
      if Adds() || WaitNotFull? then NotFull else NotEmpty
    }

    /** The condition variable a call notifies after changing the buffer. */
    function Notifies(): ConditionVariable {
      if Adds() then NotEmpty else NotFull
    }

    /** The operation on the inner ring. */
    function Operation(): Op<T>
      requires Adds() || Removes()
    {
      if EmplaceBack? then Emplace(x) else if Adds() then Push(x) else if ClearAll? then Clear else Pop
    }

    /** What the call returns after that operation. */
    function Outcome(ring: Ring<T>): Result<T>
      requires ring.WellFormed() && (Adds() || Removes())
    {
      if TryPushBack? || PushBackTimed? then Truth(true) else ring.Answer(Operation())
    }
  }

  /** Why a thread is about to take the mutex. */
  datatype Wake = Initial | Signalled | Spurious | TimedOut

  datatype Pc<+T> =
    | Idle
    | Entering(call: Call<T>, wake: Wake)    // wants the mutex
    | Checking(call: Call<T>, wake: Wake)    // owns it, about to test the guard
    | Parking(call: Call<T>)                 // owns it, about to wait
    | Sleeping(call: Call<T>)                // waits without it
    | Passing(call: Call<T>, wake: Wake)     // timed call past its guard, about to release
    | Mutating(call: Call<T>, wake: Wake)    // about to change the buffer
    | Notifying(call: Call<T>, result: Result<T>)
    | Leaving(call: Call<T>, result: Result<T>)    // owns it, about to release and return
    | Returning(call: Call<T>, result: Result<T>)
  {
    /** The thread owns the mutex here. */
    predicate Holds() {
      || Checking? || Parking? || Passing? || Leaving?
      || ((Mutating? || Notifying?) && !call.Timed())
    }

    predicate SleepsOn(cv: ConditionVariable) {
      Sleeping? && call.WaitsOn() == cv
    }

    /** The thread is on its way to changing the buffer, or to finding that it cannot. */
    predicate Awake() {
      Entering? || Checking? || Passing? || Mutating?
    }

    /** The thread has passed its guard and not yet changed the buffer. */
    predicate Committed() {
      Passing? || Mutating?
    }
  }

  /** What the outside can see of a run, and when each call takes effect. */
  datatype Event<+T> =
    | Called(thread: nat, call: Call<T>)
    | Took(thread: nat, call: Call<T>, result: Result<T>)
    | Returned(thread: nat, call: Call<T>, result: Result<T>)

  datatype State<+T> = State(ring: Ring<T>, owner: Option<nat>, pcs: seq<Pc<T>>, history: seq<Event<T>>)

  datatype Step<+T> =
    | Begin(t: nat, call: Call<T>)
    | Lock(t: nat)
    | Test(t: nat)
    | Sleep(t: nat)
    | Stir(t: nat)      // spurious wake-up
    | Expire(t: nat)    // time-out
    | Unlock(t: nat)
    | Mutate(t: nat)
    | Notify(t: nat, chosen: Option<nat>)
    | Return(t: nat)

  /** Which kinds of call each thread may make. */
  type Rights = seq<set<Kind>>

  datatype Verdict<+T> = Proceed | Wait | Answered(result: Result<T>)

  /** What a thread decides when it tests its guard under the mutex. */
  function Guard<T>(ring: Ring<T>, call: Call<T>, wake: Wake): Verdict<T>
    requires ring.WellFormed()
  {
    match call
    case PushBack(_) => if ring.full then Wait else Proceed
    case EmplaceBack(_) => if ring.full then Wait else Proceed
    case TryPushBack(_) => if ring.full then Answered(Truth(false)) else Proceed
    case PushBackTimed(_) =>
      if !ring.full then Proceed else if wake.TimedOut? then Answered(Truth(false)) else Wait
    case PopFront => Proceed
    case TryPopFront => if ring.count == 0 then Answered(Nothing) else Proceed
    case PopFrontTimed =>
      if ring.count != 0 then Proceed else if wake.TimedOut? then Answered(Nothing) else Wait
    case ClearAll => Proceed
    case WaitNotEmpty =>
      if ring.count != 0 then Answered(Truth(true)) else if wake.TimedOut? then Answered(Truth(false)) else Wait
    case WaitNotFull =>
      if !ring.full then Answered(Truth(true)) else if wake.TimedOut? then Answered(Truth(false)) else Wait
    case Inspect(q) => Answered(ring.Ask(q))
  }

  function Awakened<T>(pcs: seq<Pc<T>>, cv: ConditionVariable): (after: seq<Pc<T>>)
    ensures |after| == |pcs|
  {
    seq(|pcs|, i requires 0 <= i < |pcs| => if pcs[i].SleepsOn(cv) then Entering(pcs[i].call, Signalled) else pcs[i])
  }

  predicate Enabled<T>(s: State<T>, rights: Rights, step: Step<T>) {
    && step.t < |s.pcs| == |rights|
    && var pc := s.pcs[step.t];
       match step
       case Begin(t, call) => pc.Idle? && call.Kind() in rights[t]
       case Lock(_) => pc.Entering? && s.owner == None
       case Test(_) => pc.Checking?
       case Sleep(_) => pc.Parking?
       case Stir(_) => pc.Sleeping?
       case Expire(_) => pc.Sleeping? && pc.call.CanExpire()
       case Unlock(_) => pc.Passing? || pc.Leaving?
       case Mutate(_) => pc.Mutating? && (pc.call.Adds() || pc.call.Removes())
       case Notify(_, chosen) =>
         && pc.Notifying?
         && if pc.call.ClearAll? then chosen == None
            else if chosen == None then forall u: nat | u < |s.pcs| :: !s.pcs[u].SleepsOn(pc.call.Notifies())
            else chosen.value < |s.pcs| && s.pcs[chosen.value].SleepsOn(pc.call.Notifies())
       case Return(_) => pc.Returning?
  }

  function Placed<T>(s: State<T>, t: nat, pc: Pc<T>): State<T>
    requires t < |s.pcs|
  {
    s.(pcs := s.pcs[t := pc])
  }

  function Tested<T>(s: State<T>, t: nat): State<T>
    requires s.ring.WellFormed() && t < |s.pcs| && s.pcs[t].Checking?
  {
    var Checking(call, wake) := s.pcs[t];
    match Guard(s.ring, call, wake)
    case Proceed => Placed(s, t, if call.Timed() then Passing(call, wake) else Mutating(call, wake))
    case Wait => Placed(s, t, Parking(call))
    case Answered(result) => Placed(s, t, Leaving(call, result))
  }

  function Mutated<T>(s: State<T>, t: nat): State<T>
    requires s.ring.Usable() && t < |s.pcs|
    requires s.pcs[t].Mutating? && (s.pcs[t].call.Adds() || s.pcs[t].call.Removes())
  {
    var call := s.pcs[t].call;
    var result := call.Outcome(s.ring);
    var pc := if !result.Throws? then Notifying(call, result)
              else if call.Timed() then Returning(call, result)
              else Leaving(call, result);
    Placed(s, t, pc).(ring := s.ring.Next(call.Operation()))
  }

  function Notified<T>(s: State<T>, t: nat, chosen: Option<nat>): State<T>
    requires t < |s.pcs| && s.pcs[t].Notifying?
    requires chosen.Some? ==> chosen.value < |s.pcs| && s.pcs[chosen.value].Sleeping?
  {
    var Notifying(call, result) := s.pcs[t];
    var after := if call.Timed() then Returning(call, result) else Leaving(call, result);
    var woken := if call.ClearAll? then Awakened(s.pcs, NotFull)
                 else if chosen.Some? then s.pcs[chosen.value := Entering(s.pcs[chosen.value].call, Signalled)]
                 else s.pcs;
    s.(pcs := woken[t := after])
  }

  /** The step's effect on ring, mutex and threads. */
  function Moved<T>(s: State<T>, rights: Rights, step: Step<T>): (next: State<T>)
    requires s.ring.Usable() && Enabled(s, rights, step)
    ensures next.ring.Usable() && |next.ring.slots| == |s.ring.slots| && |next.pcs| == |s.pcs|
    ensures next.history == s.history
  {
    var pc := s.pcs[step.t];
    match step
    case Begin(t, call) => Placed(s, t, Entering(call, Initial))
    case Lock(t) => Placed(s, t, Checking(pc.call, pc.wake)).(owner := Some(t))
    case Test(t) => Tested(s, t)
    case Sleep(t) => Placed(s, t, Sleeping(pc.call)).(owner := None)
    case Stir(t) => Placed(s, t, Entering(pc.call, Spurious))
    case Expire(t) => Placed(s, t, Entering(pc.call, TimedOut))
    case Unlock(t) =>
      Placed(s, t, if pc.Passing? then Mutating(pc.call, pc.wake) else Returning(pc.call, pc.result)).(owner := None)
    case Mutate(t) => Mutated(s, t)
    case Notify(t, chosen) => Notified(s, t, chosen)
    case Return(t) => Placed(s, t, Idle)
  }

  /** The event of a step, if it has one: a call, its taking effect, or its return. */
  function Emitted<T>(s: State<T>, rights: Rights, step: Step<T>): (events: seq<Event<T>>)
    requires s.ring.Usable() && Enabled(s, rights, step)
    ensures events == [] || (|events| == 1 && events[0].thread == step.t)
  {
    var pc := s.pcs[step.t];
    match step
    case Begin(t, call) => [Called(t, call)]
    case Test(t) =>
      var verdict := Guard(s.ring, pc.call, pc.wake);
      if verdict.Answered? then [Took(t, pc.call, verdict.result)] else []
    case Mutate(t) => [Took(t, pc.call, pc.call.Outcome(s.ring))]
    case Return(t) => [Returned(t, pc.call, pc.result)]
    case _ => []
  }

  function Apply<T>(s: State<T>, rights: Rights, step: Step<T>): (next: State<T>)
    requires s.ring.Usable() && Enabled(s, rights, step)
    ensures next.ring.Usable() && |next.ring.slots| == |s.ring.slots| && |next.pcs| == |s.pcs|
  {
    Moved(s, rights, step).(history := s.history + Emitted(s, rights, step))
  }

  function Start<T>(capacity: nat, rights: Rights): (s: State<T>)
    requires 0 < capacity <= MAX_CAPACITY
    ensures s.ring.Usable() && |s.ring.slots| == capacity
  {
    State(New(capacity), None, seq(|rights|, _ => Idle), [])
  }

  /** The steps can be taken one after the other. */
  predicate CanRun<T>(s: State<T>, rights: Rights, steps: seq<Step<T>>)
    requires s.ring.Usable()
    decreases |steps|
  {
    steps != [] ==> Enabled(s, rights, steps[0]) && CanRun(Apply(s, rights, steps[0]), rights, steps[1..])
  }

  function Run<T>(s: State<T>, rights: Rights, steps: seq<Step<T>>): (end: State<T>)
    requires s.ring.Usable() && CanRun(s, rights, steps)
    ensures end.ring.Usable() && |end.ring.slots| == |s.ring.slots| && |end.pcs| == |s.pcs|
    decreases |steps|
  {
    if steps == [] then s else Run(Apply(s, rights, steps[0]), rights, steps[1..])
  }

  /** A run of the wrapper from its construction, by threads with these rights. */
  predicate IsRun<T>(capacity: nat, rights: Rights, steps: seq<Step<T>>) {
    0 < capacity <= MAX_CAPACITY && CanRun(Start(capacity, rights), rights, steps)
  }

  /** The state at its end. */
  function EndOf<T>(capacity: nat, rights: Rights, steps: seq<Step<T>>): (end: State<T>)
    requires IsRun(capacity, rights, steps)
    ensures end.ring.Usable()
  {
    Run(Start(capacity, rights), rights, steps)
  }

  lemma {:induction false} RunOn<T>(s: State<T>, rights: Rights, a: seq<Step<T>>, b: seq<Step<T>>)
    requires s.ring.Usable() && CanRun(s, rights, a) && CanRun(Run(s, rights, a), rights, b)
    ensures CanRun(s, rights, a + b) && Run(s, rights, a + b) == Run(Run(s, rights, a), rights, b)
    decreases |a|
  {
    if a == [] {
      assert a + b == b;
    } else {
      assert (a + b)[1..] == a[1..] + b;
      RunOn(Apply(s, rights, a[0]), rights, a[1..], b);
    }
  }

  // ---------------------------------------------------------------------------------------------
  // Mutual exclusion and shape
  // ---------------------------------------------------------------------------------------------

  /** Each program point is reached only by calls that have it. */
  predicate Shaped<T>(pc: Pc<T>) {
    && (pc.Parking? || pc.Sleeping? ==> pc.call.CanWait())
    && (pc.Passing? ==> pc.call.Timed())
    && (pc.Mutating? || pc.Notifying? ==> pc.call.Adds() || pc.call.Removes())
    && (pc.Awake() && pc.wake != Initial ==> pc.call.CanWait())
  }

  predicate ThreadOk<T>(s: State<T>, rights: Rights, t: nat)
    requires t < |s.pcs| == |rights|
  {
    && Shaped(s.pcs[t])
    && (s.pcs[t].Holds() <==> s.owner == Some(t))
    && (!s.pcs[t].Idle? ==> s.pcs[t].call.Kind() in rights[t])
  }

  /** What holds in every state of every run, whatever the threads may call. */
  ghost predicate Orderly<T>(s: State<T>, rights: Rights) {
    && s.ring.Usable()
    && |s.pcs| == |rights|
    && (s.owner.Some? ==> s.owner.value < |s.pcs|)
    && forall t: nat | t < |s.pcs| :: ThreadOk(s, rights, t)
  }

  /** A step moves one thread; a notification may also move sleepers back to the mutex. */
  lemma OthersStay<T>(s: State<T>, rights: Rights, step: Step<T>, u: nat)
    requires s.ring.Usable() && Enabled(s, rights, step) && u < |s.pcs| && u != step.t
    ensures var s' := Apply(s, rights, step);
            || s'.pcs[u] == s.pcs[u]
            || (step.Notify? && s.pcs[u].Sleeping? && s'.pcs[u] == Entering(s.pcs[u].call, Signalled))
  {
  }

  lemma OwnerMoves<T>(s: State<T>, rights: Rights, step: Step<T>)
    requires Orderly(s, rights) && Enabled(s, rights, step)
    ensures var s' := Apply(s, rights, step);
            && ThreadOk(s', rights, step.t)
            && forall u: nat | u != step.t :: s'.owner == Some(u) <==> s.owner == Some(u)
  {
    assert ThreadOk(s, rights, step.t);
  }

  lemma OrderlyNext<T>(s: State<T>, rights: Rights, step: Step<T>)
    requires Orderly(s, rights) && Enabled(s, rights, step)
    ensures Orderly(Apply(s, rights, step), rights)
  {
    var s' := Apply(s, rights, step);
    OwnerMoves(s, rights, step);
    forall t: nat | t < |s'.pcs| ensures ThreadOk(s', rights, t) {
      if t != step.t {
        OthersStay(s, rights, step, t);
        assert ThreadOk(s, rights, t);
      }
    }
  }

  lemma {:induction false} OrderlyRun<T>(s: State<T>, rights: Rights, steps: seq<Step<T>>)
    requires Orderly(s, rights) && CanRun(s, rights, steps)
    ensures Orderly(Run(s, rights, steps), rights)
    decreases |steps|
  {
    if steps != [] {
      OrderlyNext(s, rights, steps[0]);
      OrderlyRun(Apply(s, rights, steps[0]), rights, steps[1..]);
    }
  }

  /** In every reachable state at most one thread is between taking and releasing the mutex. */
  lemma MutualExclusion<T>(capacity: nat, rights: Rights, steps: seq<Step<T>>, a: nat, b: nat)
    requires 0 < capacity <= MAX_CAPACITY && CanRun(Start(capacity, rights), rights, steps)
    requires a < |rights| && b < |rights|
    ensures var s := Run(Start(capacity, rights), rights, steps);
            s.pcs[a].Holds() && s.pcs[b].Holds() ==> a == b
  {
    OrderlyRun(Start(capacity, rights), rights, steps);
    var s := Run(Start(capacity, rights), rights, steps);
    assert ThreadOk(s, rights, a) && ThreadOk(s, rights, b);
  }
}
