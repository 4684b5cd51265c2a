/** The runs of the wrapper that are linearizable: one half of the exact condition. */
module Safety {
  import opened Indices
  import opened RingModel
  import opened Refinement
  import opened Monitor
  import opened Histories

  /** A thread that may insert with a time-out is the only thread that may insert. */
  predicate LoneTimedAdder(rights: Rights) {
    forall a: nat, b: nat | a < |rights| && b < |rights| && a != b && KPushBackTimed in rights[a] ::
      rights[b] !! ADDERS
  }

  /** A thread that may remove with a time-out is the only thread that may remove. */
  predicate LoneTimedRemover(rights: Rights) {
    forall a: nat, b: nat | a < |rights| && b < |rights| && a != b && KPopFrontTimed in rights[a] ::
      rights[b] !! REMOVERS
  }

  predicate NobodyAdds(rights: Rights) {
    forall a: nat | a < |rights| :: rights[a] !! ADDERS
  }

  predicate TakersSafe(rights: Rights) {
    LoneTimedRemover(rights) || NobodyAdds(rights)
  }

  /** The rights under which the unlocked half of the timed calls does no harm. */
  predicate Safe(rights: Rights) {
    LoneTimedAdder(rights) && TakersSafe(rights)
  }

  // ---------------------------------------------------------------------------------------------
  // Brackets: every run, whatever the threads may call
  // ---------------------------------------------------------------------------------------------

  /** The phase of a thread, read off its program point. */
  function PhaseAt<T>(pc: Pc<T>): Phase<T> {
    match pc
    case Idle => Resting
    case Notifying(call, result) => Settled(call, result)
    case Leaving(call, result) => Settled(call, result)
    case Returning(call, result) => Settled(call, result)
    case _ => Pending(pc.call)
  }

  ghost predicate InPhase<T>(s: State<T>) {
    && Bracketed(s.history)
    && forall t: nat | t < |s.pcs| :: PhaseOf(s.history, t) == PhaseAt(s.pcs[t])
  }

  function PhaseAfter<T>(e: Event<T>): Phase<T> {
    match e
    case Called(_, call) => Pending(call)
    case Took(_, call, result) => Settled(call, result)
    case Returned(_, _, _) => Resting
  }

  lemma Appended<T>(h: seq<Event<T>>, e: Event<T>)
    ensures Bracketed(h + [e]) <==> Bracketed(h) && Follows(PhaseOf(h, e.thread), e)
    ensures forall t: nat :: PhaseOf(h + [e], t) == if t == e.thread then PhaseAfter(e) else PhaseOf(h, t)
  {
  }

  /** The event of a step fits the phase of its thread, and the step moves the thread to the phase
      after it. */
  lemma EmittedFits<T>(s: State<T>, rights: Rights, step: Step<T>)
    requires Orderly(s, rights) && Enabled(s, rights, step)
    ensures var events, after := Emitted(s, rights, step), PhaseAt(Apply(s, rights, step).pcs[step.t]);
            && (events == [] ==> after == PhaseAt(s.pcs[step.t]))
            && (events != [] ==> Follows(PhaseAt(s.pcs[step.t]), events[0]) && after == PhaseAfter(events[0]))
  {
  }

  lemma InPhaseNext<T>(s: State<T>, rights: Rights, step: Step<T>)
    requires Orderly(s, rights) && InPhase(s) && Enabled(s, rights, step)
    ensures InPhase(Apply(s, rights, step))
  {
    var s', events := Apply(s, rights, step), Emitted(s, rights, step);
    EmittedFits(s, rights, step);
    assert PhaseOf(s.history, step.t) == PhaseAt(s.pcs[step.t]);
    if events == [] {
      assert s'.history == s.history;
    } else {
      assert events == [events[0]];
      Appended(s.history, events[0]);
    }
    forall t: nat | t < |s'.pcs| ensures PhaseOf(s'.history, t) == PhaseAt(s'.pcs[t]) {
      assert PhaseOf(s.history, t) == PhaseAt(s.pcs[t]);
      if t != step.t {
        OthersStay(s, rights, step, t);
      }
    }
  }

  // ---------------------------------------------------------------------------------------------
  // Threads past their guard
  // ---------------------------------------------------------------------------------------------

  /** A thread about to insert finds room. */
  ghost predicate RoomKept<T>(s: State<T>) {
    forall t: nat | t < |s.pcs| :: s.pcs[t].Committed() && s.pcs[t].call.Adds() ==> !s.ring.full
  }

  predicate AboutToTake<T>(pc: Pc<T>) {
    pc.Committed() && (pc.call.TryPopFront? || pc.call.PopFrontTimed?)
  }

  /** A thread past a guard for an element finds one. */
  ghost predicate ItemKept<T>(s: State<T>) {
    forall t: nat | t < |s.pcs| :: AboutToTake(s.pcs[t]) ==> 0 < s.ring.count
  }

  /** Of two different threads that both may insert, neither may insert with a time-out. */
  lemma RivalAdders(rights: Rights, t: nat, u: nat, kt: Kind, ku: Kind)
    requires LoneTimedAdder(rights) && t < |rights| && u < |rights| && t != u
    requires kt in rights[t] && ku in rights[u] && kt in ADDERS && ku in ADDERS
    ensures kt != KPushBackTimed && ku != KPushBackTimed
  {
  }

  lemma RivalRemovers(rights: Rights, t: nat, u: nat, kt: Kind, ku: Kind)
    requires LoneTimedRemover(rights) && t < |rights| && u < |rights| && t != u
    requires kt in rights[t] && ku in rights[u] && kt in REMOVERS && ku in REMOVERS
    ensures kt != KPopFrontTimed && ku != KPopFrontTimed
  {
  }

  lemma RoomKeptNext<T>(s: State<T>, rights: Rights, step: Step<T>)
    requires LoneTimedAdder(rights) && Orderly(s, rights) && RoomKept(s) && Enabled(s, rights, step)
    ensures RoomKept(Apply(s, rights, step))
  {
    var s' := Apply(s, rights, step);
    forall u: nat | u < |s'.pcs| && s'.pcs[u].Committed() && s'.pcs[u].call.Adds() ensures !s'.ring.full {
      assert ThreadOk(s, rights, step.t) && ThreadOk(s, rights, u);
      if u != step.t {
        OthersStay(s, rights, step, u);
        if step.Mutate? && s.pcs[step.t].call.Adds() {
          RivalAdders(rights, step.t, u, s.pcs[step.t].call.Kind(), s.pcs[u].call.Kind());
        }
      }
    }
  }

  /** Somebody may insert, or nothing was ever inserted. */
  predicate EmptyIfNobodyAdds<T>(s: State<T>, rights: Rights) {
    NobodyAdds(rights) ==> s.ring.count == 0
  }

  lemma EmptyNext<T>(s: State<T>, rights: Rights, step: Step<T>)
    requires Orderly(s, rights) && EmptyIfNobodyAdds(s, rights) && Enabled(s, rights, step)
    ensures EmptyIfNobodyAdds(Apply(s, rights, step), rights)
  {
    assert ThreadOk(s, rights, step.t);
    if step.Mutate? && s.pcs[step.t].call.Adds() {
      assert s.pcs[step.t].call.Kind() in rights[step.t] * ADDERS;
    }
  }

  lemma ItemKeptNext<T>(s: State<T>, rights: Rights, step: Step<T>)
    requires TakersSafe(rights)
    requires Orderly(s, rights) && ItemKept(s) && EmptyIfNobodyAdds(s, rights) && Enabled(s, rights, step)
    ensures ItemKept(Apply(s, rights, step))
  {
    var s' := Apply(s, rights, step);
    forall u: nat | u < |s'.pcs| && AboutToTake(s'.pcs[u]) ensures 0 < s'.ring.count {
      assert ThreadOk(s, rights, step.t) && ThreadOk(s, rights, u);
      if u != step.t {
        OthersStay(s, rights, step, u);
        assert AboutToTake(s.pcs[u]);
        if step.Mutate? && s.pcs[step.t].call.Removes() && LoneTimedRemover(rights) {
          RivalRemovers(rights, step.t, u, s.pcs[step.t].call.Kind(), s.pcs[u].call.Kind());
        }
      }
    }
  }

  // ---------------------------------------------------------------------------------------------
  // The ring behind the mutex
  // ---------------------------------------------------------------------------------------------

  /** The ring never overwrote, its tail is in step, and it holds the queue of the history. */
  ghost predicate RingInStep<T>(s: State<T>) {
    && Tracks(s.ring, Ledger(s.ring.count, 0, false))
    && !s.ring.justOverwrote
    && Holds(s.ring, Contents(|s.ring.slots|, s.history))
  }

  /** The invariant; its strict form also covers threads about to take an element. */
  ghost predicate Sound<T>(strict: bool, s: State<T>, rights: Rights) {
    && Orderly(s, rights)
    && InPhase(s)
    && RoomKept(s)
    && RingInStep(s)
    && Legal(strict, |s.ring.slots|, s.history)
    && (strict ==> ItemKept(s) && EmptyIfNobodyAdds(s, rights))
  }

  /** Extending a history by one event extends queue and legality accordingly. */
  lemma OneMore<T>(strict: bool, capacity: nat, h: seq<Event<T>>, e: Event<T>)
    ensures Contents(capacity, h + [e]) ==
            (if e.Took? then ItemsAfterCall(capacity, Contents(capacity, h), e.call) else Contents(capacity, h))
    ensures Legal(strict, capacity, h + [e]) <==>
            && Legal(strict, capacity, h)
            && (e.Took? ==> Permitted(strict, capacity, Contents(capacity, h), e.call, e.result))
  {
  }

  /** What the ring does under a call past its guard is what the queue does, and the result is a
      permitted one. */
  lemma OperationPermitted<T>(strict: bool, ring: Ring<T>, items: seq<T>, call: Call<T>)
    requires Tracks(ring, Ledger(ring.count, 0, false)) && Holds(ring, items)
    requires call.Adds() || call.Removes()
    requires call.Adds() ==> !ring.full
    requires strict && (call.TryPopFront? || call.PopFrontTimed?) ==> 0 < ring.count
    ensures |items| == ring.count
    ensures Holds(ring.Next(call.Operation()), ItemsAfterCall(|ring.slots|, items, call))
    ensures Tracks(ring.Next(call.Operation()), Ledger(ring.Next(call.Operation()).count, 0, false))
    ensures Permitted(strict, |ring.slots|, items, call, call.Outcome(ring))
  {
    var l, op := Ledger(ring.count, 0, false), call.Operation();
    Remainder(0, 0, 0, |ring.slots|);
    assert |items| == |ring.Window()|;
    StepRefines(ring, l, items, op);
    TracksNext(ring, l, op);
    AnswerAgrees(ring, l, items, op);
  }

  lemma MutateKeepsQueue<T>(strict: bool, s: State<T>, rights: Rights, t: nat)
    requires Sound(strict, s, rights) && Enabled(s, rights, Mutate(t))
    ensures var s' := Apply(s, rights, Mutate(t));
            RingInStep(s') && Legal(strict, |s.ring.slots|, s'.history)
  {
    var call := s.pcs[t].call;
    OperationPermitted(strict, s.ring, Contents(|s.ring.slots|, s.history), call);
    OneMore(strict, |s.ring.slots|, s.history, Took(t, call, call.Outcome(s.ring)));
  }

  /** A call that answers at its guard answers what the queue answers. */
  lemma AnswerPermitted<T>(strict: bool, ring: Ring<T>, items: seq<T>, call: Call<T>, wake: Wake)
    requires Tracks(ring, Ledger(ring.count, 0, false)) && Holds(ring, items)
    requires Guard(ring, call, wake).Answered?
    ensures |items| == ring.count
    ensures Permitted(strict, |ring.slots|, items, call, Guard(ring, call, wake).result)
    ensures ItemsAfterCall(|ring.slots|, items, call) == items
  {
    Remainder(0, 0, 0, |ring.slots|);
    AskAgrees(ring, Ledger(ring.count, 0, false), items, if call.Inspect? then call.q else Size);
  }

  lemma OthersKeepQueue<T>(strict: bool, s: State<T>, rights: Rights, step: Step<T>)
    requires Sound(strict, s, rights) && Enabled(s, rights, step) && !step.Mutate?
    ensures var s' := Apply(s, rights, step);
            RingInStep(s') && Legal(strict, |s.ring.slots|, s'.history)
  {
    var events := Emitted(s, rights, step);
    if events == [] {
      assert s.history + events == s.history;
    } else {
      assert events == [events[0]];
      OneMore(strict, |s.ring.slots|, s.history, events[0]);
      if step.Test? {
        var pc := s.pcs[step.t];
        AnswerPermitted(strict, s.ring, Contents(|s.ring.slots|, s.history), pc.call, pc.wake);
      }
    }
  }

  lemma SoundNext<T>(strict: bool, s: State<T>, rights: Rights, step: Step<T>)
    requires LoneTimedAdder(rights) && (strict ==> TakersSafe(rights))
    requires Sound(strict, s, rights) && Enabled(s, rights, step)
    ensures Sound(strict, Apply(s, rights, step), rights)
  {
    OrderlyNext(s, rights, step);
    InPhaseNext(s, rights, step);
    RoomKeptNext(s, rights, step);
    if step.Mutate? {
      MutateKeepsQueue(strict, s, rights, step.t);
    } else {
      OthersKeepQueue(strict, s, rights, step);
    }
    if strict {
      ItemKeptNext(s, rights, step);
      EmptyNext(s, rights, step);
    }
  }

  lemma {:induction false} SoundRun<T>(strict: bool, s: State<T>, rights: Rights, steps: seq<Step<T>>)
    requires LoneTimedAdder(rights) && (strict ==> TakersSafe(rights))
    requires Sound(strict, s, rights) && CanRun(s, rights, steps)
    ensures Sound(strict, Run(s, rights, steps), rights)
    decreases |steps|
  {
    if steps != [] {
      SoundNext(strict, s, rights, steps[0]);
      SoundRun(strict, Apply(s, rights, steps[0]), rights, steps[1..]);
    }
  }

  lemma StartSound<T>(strict: bool, capacity: nat, rights: Rights)
    requires 0 < capacity <= MAX_CAPACITY
    ensures Sound(strict, Start<T>(capacity, rights), rights)
  {
  }

  /** If a thread that inserts with a time-out is the only one that inserts, then in every run no
      insertion meets a full ring, the ring's tail stays at the end of its window, and the accepted
      values are the removed ones followed by exactly the ring's elements: nothing is lost,
      duplicated or reordered, whatever the removing threads do. */
  lemma NothingLost<T>(capacity: nat, rights: Rights, steps: seq<Step<T>>)
    requires 0 < capacity <= MAX_CAPACITY && LoneTimedAdder(rights)
    requires CanRun(Start(capacity, rights), rights, steps)
    ensures var s := Run(Start(capacity, rights), rights, steps);
            && (forall t: nat | t < |s.pcs| && s.pcs[t].Mutating? && s.pcs[t].call.Adds() :: !s.ring.full)
            && s.ring.Aligned() && !s.ring.justOverwrote
            && Holds(s.ring, Contents(capacity, s.history))
            && Accepted(s.history) == Removed(capacity, s.history) + Contents(capacity, s.history)
            && Bracketed(s.history)
  {
    StartSound<T>(false, capacity, rights);
    SoundRun(false, Start(capacity, rights), rights, steps);
    var s := Run(Start(capacity, rights), rights, steps);
    Remainder(0, 0, 0, capacity);
    AlignedIffInStep(s.ring, Ledger(s.ring.count, 0, false));
    Conservation(false, capacity, s.history);
  }

  /** Under safe rights every run is linearizable: the points at which the calls of the run take effect
      are one explanation of what callers see. */
  lemma SafeRunsLinearize<T(!new)>(capacity: nat, rights: Rights, steps: seq<Step<T>>)
    requires 0 < capacity <= MAX_CAPACITY && Safe(rights)
    requires CanRun(Start(capacity, rights), rights, steps)
    ensures Sequential(capacity, Run(Start(capacity, rights), rights, steps).history)
    ensures Linearizable(capacity, External(Run(Start(capacity, rights), rights, steps).history))
  {
    StartSound<T>(true, capacity, rights);
    SoundRun(true, Start(capacity, rights), rights, steps);
  }

  lemma {:induction false} TakersRun<T>(s: State<T>, rights: Rights, steps: seq<Step<T>>)
    requires Orderly(s, rights) && ItemKept(s) && EmptyIfNobodyAdds(s, rights)
    requires TakersSafe(rights) && CanRun(s, rights, steps)
    ensures ItemKept(Run(s, rights, steps))
    decreases |steps|
  {
    if steps != [] {
      OrderlyNext(s, rights, steps[0]);
      ItemKeptNext(s, rights, steps[0]);
      EmptyNext(s, rights, steps[0]);
      TakersRun(Apply(s, rights, steps[0]), rights, steps[1..]);
    }
  }

  /** If a thread that removes with a time-out is the only one that removes or clears, or nobody ever
      inserts, then in every run a removal past its guard finds an element, whatever the inserting
      threads do. */
  lemma NeverFindsEmpty<T>(capacity: nat, rights: Rights, steps: seq<Step<T>>)
    requires 0 < capacity <= MAX_CAPACITY && TakersSafe(rights)
    requires CanRun(Start(capacity, rights), rights, steps)
    ensures ItemKept(Run(Start(capacity, rights), rights, steps))
  {
    TakersRun(Start(capacity, rights), rights, steps);
  }
}
