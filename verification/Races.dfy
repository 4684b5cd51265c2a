/** The other half of the exact conditions: where the rights are not safe, some run goes wrong. */
module Races {
  import opened Indices
  import opened RingModel
  import opened Monitor
  import opened Histories
  import opened Safety
  import opened Scripts

  // ---------------------------------------------------------------------------------------------
  // Insertions racing
  // ---------------------------------------------------------------------------------------------

  /** Nobody called a removal, and the insertions that returned are the elements. */
  predicate OnlyFilled<T(==)>(s: State<T>) {
    NoRemovalCalled(s.history) && ReturnedAdds(s.history) == s.ring.count
  }

  /** An insertion adds three events; only its return counts. */
  lemma ServedFills<T>(s: State<T>, t: nat, call: Call<T>)
    requires s.ring.Usable() && call.Adds() && !s.ring.full && OnlyFilled(s)
    ensures OnlyFilled(Served(s, t, call))
  {
    var h, result := s.history, call.Outcome(s.ring);
    OneMoreReturn(h, Called(t, call));
    OneMoreReturn(h + [Called(t, call)], Took(t, call, result));
    OneMoreReturn(h + [Called(t, call)] + [Took(t, call, result)], Returned(t, call, result));
  }

  /** One thread, inserting alone, can fill the ring. */
  lemma {:induction false} FillUp<T>(s: State<T>, rights: Rights, t: nat, call: Call<T>) returns (steps: seq<Step<T>>)
    requires Quiet(s, rights) && t < |s.pcs| && s.pcs[t].Idle? && OnlyFilled(s)
    requires call.Kind() in rights[t] && call.Adds()
    ensures CanRun(s, rights, steps)
    ensures var end := Run(s, rights, steps);
            && Quiet(end, rights) && end.pcs == s.pcs && OnlyFilled(end)
            && end.ring.full && |end.ring.slots| == |s.ring.slots|
    decreases |s.ring.slots| - s.ring.count
  {
    if s.ring.full {
      steps := [];
    } else {
      CallRuns(s, rights, t, call);
      ServedFills(s, t, call);
      var rest := FillUp(Served(s, t, call), rights, t, call);
      steps := CallSteps(t, call) + rest;
      RunOn(s, rights, CallSteps(t, call), rest);
    }
  }

  function Adding<T>(k: Kind, x: T): (call: Call<T>)
    requires k in ADDERS
    ensures call.Adds() && call.Kind() == k
  {
    match k
    case KPushBack => PushBack(x)
    case KEmplaceBack => EmplaceBack(x)
    case KTryPushBack => TryPushBack(x)
    case _ => PushBackTimed(x)
  }

  /** If one thread may insert with a time-out and another may insert, some run brings the first,
      past its guard, to insert into a full ring. */
  lemma AddersRace<T>(capacity: nat, rights: Rights, x: T, a: nat, b: nat, k: Kind) returns (steps: seq<Step<T>>)
    requires 0 < capacity <= MAX_CAPACITY
    requires a < |rights| && b < |rights| && a != b && KPushBackTimed in rights[a] && k in rights[b] * ADDERS
    ensures CanRun(Start(capacity, rights), rights, steps)
    ensures var s := Run(Start(capacity, rights), rights, steps);
            s.pcs[a] == Mutating(PushBackTimed(x), Initial) && s.ring.full && OnlyFilled(s) && Quiet(s, rights)
  {
    var s0, timed := Start<T>(capacity, rights), PushBackTimed(x);
    StartQuiet<T>(capacity, rights);
    CommitRuns(s0, rights, a, timed);
    OneMoreReturn(s0.history, Called(a, timed));
    var fill := FillUp(Committed(s0, a, timed), rights, b, Adding(k, x));
    steps := CommitSteps(a, timed) + fill;
    RunOn(s0, rights, CommitSteps(a, timed), fill);
  }

  // ---------------------------------------------------------------------------------------------
  // Removals racing
  // ---------------------------------------------------------------------------------------------

  function Removing<T>(k: Kind): (call: Call<T>)
    requires k in REMOVERS
    ensures call.Removes() && call.Kind() == k
  {
    match k
    case KPopFront => PopFront
    case KTryPopFront => TryPopFront
    case KPopFrontTimed => PopFrontTimed
    case _ => ClearAll
  }

  lemma RemovalEmpties<T>(ring: Ring<T>, k: Kind)
    requires ring.Usable() && ring.count == 1 && k in REMOVERS
    ensures var remove := Removing<T>(k);
            && Guard(ring, remove, Initial).Proceed? && !remove.Outcome(ring).Throws?
            && ring.Next(remove.Operation()).count == 0
  {
  }

  /** Past its guard with one element left, a timed removal can lose it to another removal. */
  lemma LosesItem<T>(s: State<T>, rights: Rights, a: nat, b: nat, k: Kind) returns (steps: seq<Step<T>>)
    requires Quiet(s, rights) && s.ring.count == 1
    requires a < |rights| && b < |rights| && a != b && s.pcs[a].Idle? && s.pcs[b].Idle?
    requires KPopFrontTimed in rights[a] && k in rights[b] * REMOVERS
    ensures CanRun(s, rights, steps)
    ensures var end := Run(s, rights, steps); end.pcs[a] == Mutating(PopFrontTimed, Initial) && end.ring.count == 0
  {
    var timed, remove := PopFrontTimed, Removing<T>(k);
    CommitRuns(s, rights, a, timed);
    RemovalEmpties(s.ring, k);
    CallRuns(Committed(s, a, timed), rights, b, remove);
    RunOn(s, rights, CommitSteps(a, timed), CallSteps(b, remove));
    steps := CommitSteps(a, timed) + CallSteps(b, remove);
  }

  /** If one thread may remove with a time-out, another may remove or clear, and somebody may insert,
      some run brings the first, past its guard, to remove from an empty ring. */
  lemma RemoversRace<T>(capacity: nat, rights: Rights, x: T, a: nat, b: nat, c: nat, k: Kind, j: Kind)
    returns (steps: seq<Step<T>>)
    requires 0 < capacity <= MAX_CAPACITY
    requires a < |rights| && b < |rights| && a != b && KPopFrontTimed in rights[a] && k in rights[b] * REMOVERS
    requires c < |rights| && j in rights[c] * ADDERS
    ensures CanRun(Start(capacity, rights), rights, steps)
    ensures var s := Run(Start(capacity, rights), rights, steps);
            s.pcs[a] == Mutating(PopFrontTimed, Initial) && s.ring.count == 0
  {
    var s, add := Start<T>(capacity, rights), Adding(j, x);
    StartQuiet<T>(capacity, rights);
    CallRuns(s, rights, c, add);
    var rest := LosesItem(Served(s, c, add), rights, a, b, k);
    RunOn(s, rights, CallSteps(c, add), rest);
    steps := CallSteps(c, add) + rest;
  }

  // ---------------------------------------------------------------------------------------------
  // The exact conditions
  // ---------------------------------------------------------------------------------------------

  /** An insertion is about to meet a full ring, and would overwrite. */
  predicate AboutToOverwrite<T>(s: State<T>, t: nat)
    requires t < |s.pcs|
  {
    s.pcs[t].Mutating? && s.pcs[t].call.Adds() && s.ring.full
  }

  /** A removal that found an element when it tested is about to meet an empty ring. */
  predicate AboutToFindEmpty<T>(s: State<T>, t: nat)
    requires t < |s.pcs|
  {
    s.pcs[t].Mutating? && s.pcs[t].call.PopFrontTimed? && s.ring.count == 0
  }

  ghost predicate NobodyOverwrites<T>(s: State<T>) {
    forall t: nat | t < |s.pcs| :: !AboutToOverwrite(s, t)
  }

  ghost predicate NobodyFindsEmpty<T>(s: State<T>) {
    forall t: nat | t < |s.pcs| :: !AboutToFindEmpty(s, t)
  }

  /** No run ever overwrites exactly when a thread that may insert with a time-out is the only thread
      that may insert. */
  lemma NeverOverwritesIff<T>(capacity: nat, rights: Rights, x: T)
    requires 0 < capacity <= MAX_CAPACITY
    ensures (forall steps: seq<Step<T>> | IsRun(capacity, rights, steps) ::
               NobodyOverwrites(EndOf(capacity, rights, steps)))
       <==> LoneTimedAdder(rights)
  {
    if LoneTimedAdder(rights) {
      forall steps: seq<Step<T>> | IsRun(capacity, rights, steps)
        ensures NobodyOverwrites(EndOf(capacity, rights, steps))
      {
        NothingLost(capacity, rights, steps);
      }
    } else {
      var steps, a := OverwritingRun(capacity, rights, x);
      assert IsRun(capacity, rights, steps) && !NobodyOverwrites(EndOf(capacity, rights, steps));
    }
  }

  lemma OverwritingRun<T>(capacity: nat, rights: Rights, x: T) returns (steps: seq<Step<T>>, a: nat)
    requires 0 < capacity <= MAX_CAPACITY && !LoneTimedAdder(rights)
    ensures CanRun(Start(capacity, rights), rights, steps) && a < |rights|
    ensures var s := Run(Start(capacity, rights), rights, steps);
            && AboutToOverwrite(s, a) && s.pcs[a] == Mutating(PushBackTimed(x), Initial)
            && OnlyFilled(s) && Quiet(s, rights)
  {
    var b: nat;
    a, b :| a < |rights| && b < |rights| && a != b && KPushBackTimed in rights[a] && !(rights[b] !! ADDERS);
    var k :| k in rights[b] * ADDERS;
    steps := AddersRace(capacity, rights, x, a, b, k);
  }

  /** No run of a timed removal ever finds the ring empty after its guard exactly when a thread that may
      remove with a time-out is the only thread that may remove or clear, or nobody may insert. */
  lemma NeverFindsEmptyIff<T>(capacity: nat, rights: Rights, x: T)
    requires 0 < capacity <= MAX_CAPACITY
    ensures (forall steps: seq<Step<T>> | IsRun(capacity, rights, steps) ::
               NobodyFindsEmpty(EndOf(capacity, rights, steps)))
       <==> TakersSafe(rights)
  {
    if TakersSafe(rights) {
      forall steps: seq<Step<T>> | IsRun(capacity, rights, steps)
        ensures NobodyFindsEmpty(EndOf(capacity, rights, steps))
      {
        NeverFindsEmpty(capacity, rights, steps);
      }
    } else {
      var steps: seq<Step<T>>, a: nat := EmptyRun(capacity, rights, x);
      assert IsRun(capacity, rights, steps) && !NobodyFindsEmpty(EndOf(capacity, rights, steps));
    }
  }

  lemma EmptyRun<T>(capacity: nat, rights: Rights, x: T) returns (steps: seq<Step<T>>, a: nat)
    requires 0 < capacity <= MAX_CAPACITY && !TakersSafe(rights)
    ensures CanRun(Start(capacity, rights), rights, steps) && a < |rights|
    ensures AboutToFindEmpty(Run(Start(capacity, rights), rights, steps), a)
  {
    var b: nat;
    a, b :| a < |rights| && b < |rights| && a != b && KPopFrontTimed in rights[a] && !(rights[b] !! REMOVERS);
    var c: nat :| c < |rights| && !(rights[c] !! ADDERS);
    var k :| k in rights[b] * REMOVERS;
    var j :| j in rights[c] * ADDERS;
    steps := RemoversRace(capacity, rights, x, a, b, c, k, j);
  }

  /** The insertion that overwrites returns as done: one more than fits. */
  lemma OverwritingReturns<T>(s: State<T>, rights: Rights, x: T, a: nat)
    requires Quiet(s, rights) && OnlyFilled(s) && a < |s.pcs| && s.pcs[a] == Mutating(PushBackTimed(x), Initial)
    ensures CanRun(s, rights, FinishSteps(a))
    ensures var end := Run(s, rights, FinishSteps(a));
            NoRemovalCalled(end.history) && ReturnedAdds(end.history) == s.ring.count + 1
  {
    FinishRuns(s, rights, a, PushBackTimed(x));
    OneMoreReturn(s.history, Took(a, PushBackTimed(x), Truth(true)));
    OneMoreReturn(s.history + [Took(a, PushBackTimed(x), Truth(true))], Returned(a, PushBackTimed(x), Truth(true)));
  }

  function ThrowSteps<T>(t: nat): seq<Step<T>> {
    [Mutate(t), Return(t)]
  }

  /** The removal that finds nothing returns by throwing. */
  lemma FindingEmptyReturns<T>(s: State<T>, rights: Rights, a: nat)
    requires s.ring.Usable() && a < |s.pcs| == |rights| && AboutToFindEmpty(s, a)
    ensures CanRun(s, rights, ThrowSteps(a))
    ensures Returned(a, PopFrontTimed, Throws(EmptyBuffer)) in
            External(Run(s, rights, ThrowSteps(a)).history)
  {
    var s1 := Apply(s, rights, Mutate(a));
    var s2 := Apply(s1, rights, Return(a));
    One(s1, rights, Return(a), []);
    One(s, rights, Mutate(a), [Return(a)]);
    assert ThrowSteps<T>(a) == [Mutate(a)] + [Return(a)];
    assert s2.history == s1.history + [Returned(a, PopFrontTimed, Throws(EmptyBuffer))];
    assert s2.history[..|s2.history| - 1] == s1.history;
  }

  /** One insertion too many returned: no choice of effect points explains that. */
  lemma OverfullNotLinearizable<T(!new)>(capacity: nat, outside: seq<Event<T>>)
    requires NoRemovalCalled(outside) && capacity < ReturnedAdds(outside)
    ensures !Linearizable(capacity, outside)
  {
    forall h: seq<Event<T>> | Sequential(capacity, h) && External(h) == outside ensures false {
      AddsFit(capacity, h);
    }
  }

  /** A timed removal threw: no choice of effect points explains that. */
  lemma ThrowNotLinearizable<T(!new)>(capacity: nat, outside: seq<Event<T>>, t: nat)
    requires Returned(t, PopFrontTimed, Throws(EmptyBuffer)) in outside
    ensures !Linearizable(capacity, outside)
  {
    forall h: seq<Event<T>> | Sequential(capacity, h) && External(h) == outside ensures false {
      var e: Event<T> := Returned(t, PopFrontTimed, Throws(EmptyBuffer));
      ExternalHas(h, e);
      var j: nat :| j < |h| && h[j] == e;
      TimedRemovalNeverThrows(capacity, h, j);
    }
  }

  lemma OverfullRun<T(!new)>(capacity: nat, rights: Rights, x: T) returns (steps: seq<Step<T>>)
    requires 0 < capacity <= MAX_CAPACITY && !LoneTimedAdder(rights)
    ensures CanRun(Start(capacity, rights), rights, steps)
    ensures !Linearizable(capacity, External(Run(Start(capacity, rights), rights, steps).history))
  {
    var before, a := OverwritingRun(capacity, rights, x);
    OverwritingReturns(Run(Start(capacity, rights), rights, before), rights, x, a);
    RunOn(Start(capacity, rights), rights, before, FinishSteps(a));
    steps := before + FinishSteps(a);
    var h := Run(Start(capacity, rights), rights, steps).history;
    ExternalCounts(h);
    OverfullNotLinearizable(capacity, External(h));
  }

  lemma ThrowingRun<T(!new)>(capacity: nat, rights: Rights, x: T) returns (steps: seq<Step<T>>)
    requires 0 < capacity <= MAX_CAPACITY && !TakersSafe(rights)
    ensures CanRun(Start(capacity, rights), rights, steps)
    ensures !Linearizable(capacity, External(Run(Start(capacity, rights), rights, steps).history))
  {
    var before: seq<Step<T>>, a: nat := EmptyRun(capacity, rights, x);
    FindingEmptyReturns(Run(Start(capacity, rights), rights, before), rights, a);
    RunOn(Start(capacity, rights), rights, before, ThrowSteps(a));
    steps := before + ThrowSteps(a);
    ThrowNotLinearizable(capacity, External(Run(Start(capacity, rights), rights, steps).history), a);
  }

  /** The wrapper is linearizable exactly under safe rights. For every run of any number of threads that
      make only the calls they may make, what the callers see (their calls, returns and results) can be
      explained as a run of the sequential queue, with each call taking effect somewhere between its call
      and its return, if and only if whoever inserts with a time-out inserts alone, and whoever removes
      with a time-out removes alone or nobody inserts. */
  lemma LinearizableIffSafe<T(!new)>(capacity: nat, rights: Rights, x: T)
    requires 0 < capacity <= MAX_CAPACITY
    ensures (forall steps: seq<Step<T>> | IsRun(capacity, rights, steps) ::
               Linearizable(capacity, External(EndOf(capacity, rights, steps).history)))
       <==> Safe(rights)
  {
    if Safe(rights) {
      forall steps: seq<Step<T>> | IsRun(capacity, rights, steps)
        ensures Linearizable(capacity, External(EndOf(capacity, rights, steps).history))
      {
        SafeRunsLinearize(capacity, rights, steps);
      }
    } else if LoneTimedAdder(rights) {
      var steps := ThrowingRun(capacity, rights, x);
      assert IsRun(capacity, rights, steps);
      assert !Linearizable(capacity, External(EndOf(capacity, rights, steps).history));
    } else {
      var steps := OverfullRun(capacity, rights, x);
      assert IsRun(capacity, rights, steps);
      assert !Linearizable(capacity, External(EndOf(capacity, rights, steps).history));
    }
  }
}
