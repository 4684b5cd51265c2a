/** No stuck state: what is under way can always be finished, without help from spurious wake-ups. */
module Progress {
  import opened Indices
  import opened Monitor
  import opened Scripts
  import opened Tallies
  import opened Wakeups
  import LostWakeups

  const LOCKED: set<Kind> :=
    {KPushBack, KEmplaceBack, KTryPushBack, KPopFront, KTryPopFront, KClearAll, KInspect}

  /** All calls stay under the mutex, nobody only watches, and thread `c` polls and never blocks. */
  predicate Polled(rights: Rights, c: nat) {
    && c < |rights| && KTryPopFront in rights[c]
    && KPushBack !in rights[c] && KEmplaceBack !in rights[c]
    && forall t: nat | t < |rights| :: rights[t] <= LOCKED
  }

  lemma PolledIsWakeful(rights: Rights, c: nat)
    requires Polled(rights, c)
    ensures NoSlip(rights, NotFull) && NoDecoy(rights, NotFull)
  {
  }

  // ---------------------------------------------------------------------------------------------
  // A rank that every internal step lowers
  // ---------------------------------------------------------------------------------------------

  /** Not a new call, not a spurious wake-up, not a time-out. */
  predicate Internal<T>(step: Step<T>) {
    !step.Begin? && !step.Stir? && !step.Expire?
  }

  /** Twice the calls that have not taken effect plus the elements. */
  function Work<T>(s: State<T>): nat {
    2 * Total(s.pcs, Undecided) + s.ring.count
  }

  predicate RanksBelow<T>(a: State<T>, b: State<T>) {
    || Work(a) < Work(b)
    || (Work(a) == Work(b) && Total(a.pcs, ClearNotices) < Total(b.pcs, ClearNotices))
    || (Work(a) == Work(b) && Total(a.pcs, ClearNotices) == Total(b.pcs, ClearNotices)
        && Total(a.pcs, Effort) < Total(b.pcs, Effort))
  }

  lemma PlainStepLowers<T>(s: State<T>, rights: Rights, step: Step<T>)
    requires Orderly(s, rights) && Enabled(s, rights, step)
    requires Internal(step) && !step.Notify? && !step.Mutate? && !step.Test?
    ensures RanksBelow(Apply(s, rights, step), s)
  {
    OwnReading(s, rights, step);
    assert ThreadOk(s, rights, step.t);
  }

  lemma TestLowers<T>(s: State<T>, rights: Rights, t: nat)
    requires Orderly(s, rights) && Enabled(s, rights, Test(t))
    ensures RanksBelow(Apply(s, rights, Test(t)), s)
  {
    OwnReading(s, rights, Test(t));
  }

  lemma MutateLowers<T>(s: State<T>, rights: Rights, t: nat)
    requires Orderly(s, rights) && Enabled(s, rights, Mutate(t))
    ensures RanksBelow(Apply(s, rights, Mutate(t)), s)
  {
    OwnReading(s, rights, Mutate(t));
    assert ThreadOk(s, rights, t);
  }

  lemma NotifyOneLowers<T>(s: State<T>, rights: Rights, t: nat, chosen: Option<nat>)
    requires Orderly(s, rights) && Enabled(s, rights, Notify(t, chosen)) && !s.pcs[t].call.ClearAll?
    ensures RanksBelow(Apply(s, rights, Notify(t, chosen)), s)
  {
    NotifyReading(s, rights, t, chosen);
  }

  lemma NotifyAllLowers<T>(s: State<T>, rights: Rights, t: nat)
    requires Orderly(s, rights) && Enabled(s, rights, Notify(t, None)) && s.pcs[t].call.ClearAll?
    ensures RanksBelow(Apply(s, rights, Notify(t, None)), s)
  {
    ClearReading(s, rights, t, Undecided);
    ClearReading(s, rights, t, ClearNotices);
  }

  /** Whatever the threads may call: every internal step lowers the rank, so no run of internal steps
      goes on for ever. */
  lemma InternalStepLowers<T>(s: State<T>, rights: Rights, step: Step<T>)
    requires Orderly(s, rights) && Enabled(s, rights, step) && Internal(step)
    ensures RanksBelow(Apply(s, rights, step), s)
  {
    match step {
      case Notify(t, chosen) =>
        if s.pcs[t].call.ClearAll? {
          NotifyAllLowers(s, rights, t);
        } else {
          NotifyOneLowers(s, rights, t, chosen);
        }
      case Mutate(t) => MutateLowers(s, rights, t);
      case Test(t) => TestLowers(s, rights, t);
      case _ => PlainStepLowers(s, rights, step);
    }
  }

  // ---------------------------------------------------------------------------------------------
  // From any reachable state to rest
  // ---------------------------------------------------------------------------------------------

  /** A thread that is neither idle nor asleep nor kept out of the mutex. */
  predicate Movable<T>(s: State<T>, t: nat) {
    t < |s.pcs| && !s.pcs[t].Idle? && !s.pcs[t].Sleeping? && (s.pcs[t].Entering? ==> s.owner == None)
  }

  lemma NextStepOf<T>(s: State<T>, rights: Rights, t: nat) returns (step: Step<T>)
    requires Orderly(s, rights) && Movable(s, t)
    ensures Enabled(s, rights, step) && Internal(step)
  {
    assert ThreadOk(s, rights, t);
    match s.pcs[t] {
      case Entering(_, _) => step := Lock(t);
      case Checking(_, _) => step := Test(t);
      case Parking(_) => step := Sleep(t);
      case Passing(_, _) => step := Unlock(t);
      case Mutating(_, _) => step := Mutate(t);
      case Notifying(call, _) =>
        if !call.ClearAll? && exists u: nat :: u < |s.pcs| && s.pcs[u].SleepsOn(call.Notifies()) {
          var u: nat :| u < |s.pcs| && s.pcs[u].SleepsOn(call.Notifies());
          step := Notify(t, Some(u));
        } else {
          step := Notify(t, None);
        }
      case Leaving(_, _) => step := Unlock(t);
      case Returning(_, _) => step := Return(t);
    }
  }

  /** No thread can move. */
  ghost predicate Standstill<T>(s: State<T>) {
    forall t: nat | t < |s.pcs| :: !Movable(s, t)
  }

  /** At a standstill no internal step is possible, and only then. */
  lemma StandstillIff<T>(s: State<T>, rights: Rights)
    requires Orderly(s, rights)
    ensures Standstill(s) <==> forall step: Step<T> | Internal(step) :: !Enabled(s, rights, step)
  {
    if step: Step<T> :| Internal(step) && Enabled(s, rights, step) {
      assert Movable(s, step.t);
    } else if t: nat :| t < |s.pcs| && Movable(s, t) {
      var step := NextStepOf(s, rights, t);
    }
  }

  /** At a standstill nobody owns the mutex and everybody is idle or asleep. */
  lemma NobodyMoves<T>(s: State<T>, rights: Rights)
    requires Orderly(s, rights) && Standstill(s)
    ensures s.owner == None
    ensures forall t: nat | t < |s.pcs| :: s.pcs[t].Idle? || s.pcs[t].Sleeping?
  {
    if s.owner.Some? {
      assert ThreadOk(s, rights, s.owner.value);
      assert Movable(s, s.owner.value);
    }
    forall t: nat | t < |s.pcs| ensures s.pcs[t].Idle? || s.pcs[t].Sleeping? {
      assert !Movable(s, t);
    }
  }

  /** Whatever the threads may call, what is under way comes to a standstill. */
  lemma {:induction false} Settle<T>(s: State<T>, rights: Rights) returns (steps: seq<Step<T>>)
    requires Orderly(s, rights)
    ensures CanRun(s, rights, steps) && Standstill(Run(s, rights, steps))
    ensures forall i | 0 <= i < |steps| :: Internal(steps[i])
    decreases Work(s), Total(s.pcs, ClearNotices), Total(s.pcs, Effort)
  {
    if t: nat :| t < |s.pcs| && Movable(s, t) {
      var step := NextStepOf(s, rights, t);
      OrderlyNext(s, rights, step);
      InternalStepLowers(s, rights, step);
      var rest := Settle(Apply(s, rights, step), rights);
      One(s, rights, step, rest);
      steps := [step] + rest;
    } else {
      steps := [];
    }
  }

  /** Nobody sleeps on `cv` beside what it waits for. */
  ghost predicate NobodyMissed<T>(s: State<T>, cv: ConditionVariable)
    requires s.ring.WellFormed()
  {
    forall p: nat | p < |s.pcs| && s.pcs[p].SleepsOn(cv) :: Supply(s.ring, cv) == 0
  }

  lemma KeptAtStandstill<T>(s: State<T>, rights: Rights, cv: ConditionVariable)
    requires Orderly(s, rights) && WakeupsKept(s, cv) && Standstill(s)
    ensures NobodyMissed(s, cv)
  {
    NobodyMoves(s, rights);
    TotalZeroIff(s.pcs, Summoned(cv));
    TotalZeroIff(s.pcs, Owing(cv));
    TotalZeroIff(s.pcs, Asleep(cv));
  }

  /** What wakeful rights are for: every run that comes to a standstill leaves nobody asleep on `cv`
      beside a free slot or an element, exactly under wakeful rights. */
  lemma NobodyMissedIff<T>(capacity: nat, rights: Rights, x: T, cv: ConditionVariable)
    requires 0 < capacity <= MAX_CAPACITY
    ensures (forall steps: seq<Step<T>>
               | IsRun(capacity, rights, steps) && Standstill(EndOf(capacity, rights, steps)) ::
               NobodyMissed(EndOf(capacity, rights, steps), cv))
       <==> Wakeful(rights, cv)
  {
    if Wakeful(rights, cv) {
      forall steps: seq<Step<T>> | IsRun(capacity, rights, steps) && Standstill(EndOf(capacity, rights, steps))
        ensures NobodyMissed(EndOf(capacity, rights, steps), cv)
      {
        OrderlyRun(Start(capacity, rights), rights, steps);
        NoLostWakeup(capacity, rights, steps, cv);
        KeptAtStandstill(EndOf(capacity, rights, steps), rights, cv);
      }
    } else {
      var steps, p := LostWakeups.LosingRun(capacity, rights, x, cv);
      var s := EndOf(capacity, rights, steps);
      assert s.pcs[p].SleepsOn(cv);
      forall t: nat | t < |s.pcs| ensures !Movable(s, t) {
        assert t != p ==> s.pcs[t].Idle?;
      }
      assert IsRun(capacity, rights, steps) && Standstill(EndOf(capacity, rights, steps));
      assert !NobodyMissed(EndOf(capacity, rights, steps), cv);
    }
  }

  /** Everybody is idle and the ring is empty. */
  ghost predicate AtRest<T>(s: State<T>) {
    s.ring.count == 0 && forall t: nat | t < |s.pcs| :: s.pcs[t].Idle?
  }

  /** If the ring is empty and no thread can move, then nobody sleeps: a sleeper would have been
      summoned. */
  lemma NobodySleepsOnEmpty<T>(s: State<T>, rights: Rights, c: nat)
    requires Polled(rights, c) && Attended(s, rights, NotFull) && s.ring.count == 0
    requires forall t: nat | t < |s.pcs| :: s.pcs[t].Idle? || s.pcs[t].Sleeping?
    ensures AtRest(s)
  {
    TotalZeroIff(s.pcs, Summoned(NotFull));
    TotalZeroIff(s.pcs, Owing(NotFull));
    TotalZeroIff(s.pcs, Asleep(NotFull));
    forall t: nat | t < |s.pcs| ensures s.pcs[t].Idle? {
      assert ThreadOk(s, rights, t) && rights[t] <= LOCKED && Reading(Asleep(NotFull), s.pcs[t]) == 0;
    }
  }

  lemma PollerIdle<T>(s: State<T>, rights: Rights, c: nat)
    requires Polled(rights, c) && Orderly(s, rights)
    ensures !s.pcs[c].Sleeping?
  {
    assert ThreadOk(s, rights, c) && rights[c] <= LOCKED;
  }

  lemma TakingLowers<T>(s: State<T>, c: nat)
    requires s.ring.Usable() && 0 < s.ring.count && c < |s.pcs| && s.pcs[c].Idle?
    ensures var pcs := s.pcs[c := Notifying(TryPopFront, TryPopFront.Outcome(s.ring))];
            2 * Total(pcs, Undecided) + s.ring.PopFront().count < Work(s)
  {
    TotalUpdate(s.pcs, Undecided, c, Notifying(TryPopFront, TryPopFront.Outcome(s.ring)));
  }

  /** With elements left and nobody moving, the polling thread takes one. */
  lemma PollTakes<T>(s: State<T>, rights: Rights, c: nat)
    requires Orderly(s, rights) && s.owner == None && 0 < s.ring.count
    requires c < |rights| && KTryPopFront in rights[c] && s.pcs[c].Idle?
    ensures CanRun(s, rights, LockedFirst(c, TryPopFront))
    ensures Work(Run(s, rights, LockedFirst(c, TryPopFront))) < Work(s)
  {
    LockedFirstRuns(s, rights, c, TryPopFront);
    TakingLowers(s, c);
  }

  /** Internal, or the polling thread's next attempt. */
  predicate InternalOrPoll<T>(step: Step<T>, c: nat) {
    Internal(step) || (step.Begin? && step.t == c && step.call.TryPopFront?)
  }

  lemma {:induction false} Drain<T>(s: State<T>, rights: Rights, c: nat) returns (steps: seq<Step<T>>)
    requires Polled(rights, c) && Attended(s, rights, NotFull)
    ensures CanRun(s, rights, steps) && AtRest(Run(s, rights, steps))
    ensures forall i | 0 <= i < |steps| :: InternalOrPoll(steps[i], c)
    decreases Work(s), Total(s.pcs, ClearNotices), Total(s.pcs, Effort)
  {
    if t: nat :| t < |s.pcs| && Movable(s, t) {
      var step := NextStepOf(s, rights, t);
      PolledIsWakeful(rights, c);
      AttendedNext(s, rights, NotFull, step);
      InternalStepLowers(s, rights, step);
      var rest := Drain(Apply(s, rights, step), rights, c);
      One(s, rights, step, rest);
      steps := [step] + rest;
    } else {
      NobodyMoves(s, rights);
      if s.ring.count == 0 {
        NobodySleepsOnEmpty(s, rights, c);
        steps := [];
      } else {
        var poll := LockedFirst<T>(c, TryPopFront);
        PollerIdle(s, rights, c);
        PollTakes(s, rights, c);
        PolledIsWakeful(rights, c);
        AttendedRun(s, rights, NotFull, poll);
        var rest := Drain(Run(s, rights, poll), rights, c);
        RunOn(s, rights, poll, rest);
        steps := poll + rest;
      }
    }
  }

  /** From every reachable state of blocking and polling threads under the mutex, with at least one
      that polls for removals and never blocks, some run of internal steps and polls, without any
      spurious wake-up, ends with every call returned, every thread idle and the ring empty. */
  lemma AlwaysDrains<T>(capacity: nat, rights: Rights, before: seq<Step<T>>, c: nat) returns (steps: seq<Step<T>>)
    requires 0 < capacity <= MAX_CAPACITY && Polled(rights, c)
    requires CanRun(Start(capacity, rights), rights, before)
    ensures var s := Run(Start(capacity, rights), rights, before);
            && CanRun(s, rights, steps)
            && AtRest(Run(s, rights, steps))
            && forall i | 0 <= i < |steps| :: InternalOrPoll(steps[i], c)
  {
    PolledIsWakeful(rights, c);
    StartAttended<T>(capacity, rights, NotFull);
    AttendedRun(Start(capacity, rights), rights, NotFull, before);
    steps := Drain(Run(Start(capacity, rights), rights, before), rights, c);
  }
}
