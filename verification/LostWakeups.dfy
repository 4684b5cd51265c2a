/** The other half of the wake-up condition: where the rights are not wakeful, some run leaves a thread
    asleep beside what it waits for. */
module LostWakeups {
  import opened Indices
  import opened RingModel
  import opened Monitor
  import opened Safety
  import opened Scripts
  import opened Tallies
  import opened Wakeups
  import opened Races

  /** Everybody is idle and there is nothing for sleepers of `cv`. */
  ghost predicate Exhausted<T>(s: State<T>, rights: Rights, cv: ConditionVariable) {
    Free(s, rights) && Supply(s.ring, cv) == 0 && forall t: nat | t < |s.pcs| :: s.pcs[t].Idle?
  }

  /** Thread `p` sleeps on `cv` although there is something for it, every other thread is idle, and
      nobody is about to notify. */
  ghost predicate Overlooked<T>(s: State<T>, p: nat, cv: ConditionVariable) {
    && s.ring.Usable() && s.owner == None
    && p < |s.pcs| && s.pcs[p].SleepsOn(cv)
    && Supply(s.ring, cv) == 1
    && forall t: nat | t < |s.pcs| && t != p :: s.pcs[t].Idle?
  }

  lemma OverlookedIsLost<T>(s: State<T>, p: nat, cv: ConditionVariable)
    requires Overlooked(s, p, cv)
    ensures !WakeupsKept(s, cv)
  {
    TotalZeroIff(s.pcs, Asleep(cv));
    TotalZeroIff(s.pcs, Summoned(cv));
    TotalZeroIff(s.pcs, Owing(cv));
    assert Reading(Asleep(cv), s.pcs[p]) == 1;
  }

  /** A call that may sleep on `cv`. */
  function Waiting<T>(cv: ConditionVariable, k: Kind, x: T): (call: Call<T>)
    requires k in Sleepers(cv)
    ensures call.Kind() == k && call.CanWait() && call.WaitsOn() == cv
  {
    match k
    case KPushBack => PushBack(x)
    case KEmplaceBack => EmplaceBack(x)
    case KPushBackTimed => PushBackTimed(x)
    case KWaitNotFull => WaitNotFull
    case KPopFrontTimed => PopFrontTimed
    case _ => WaitNotEmpty
  }

  /** A call that supplies `cv`. */
  function Supplying<T>(cv: ConditionVariable, k: Kind, x: T): (call: Call<T>)
    requires k in Suppliers(cv)
    ensures call.Kind() == k && call.Notifies() == cv && (call.Adds() || (call.Removes() && !call.ClearAll?))
  {
    if cv == NotEmpty then Adding(k, x) else Removing(k)
  }

  /** With nothing for sleepers of `cv`, a waiting call waits, and a supplying call goes ahead and
      leaves one place or element. */
  lemma AtExhaustion<T>(ring: Ring<T>, cv: ConditionVariable, k: Kind, j: Kind, x: T)
    requires ring.Usable() && Supply(ring, cv) == 0 && k in Sleepers(cv) && j in Suppliers(cv)
    ensures Guard(ring, Waiting(cv, k, x), Initial).Wait?
    ensures var supply := Supplying(cv, j, x);
            && Guard(ring, supply, Initial).Proceed? && !supply.Outcome(ring).Throws?
            && Supply(ring.Next(supply.Operation()), cv) == 1
  {
  }

  /** A state with nothing for sleepers is reachable: the start for removers, a full ring for inserters. */
  lemma Exhaust<T>(capacity: nat, rights: Rights, x: T, cv: ConditionVariable) returns (steps: seq<Step<T>>)
    requires 0 < capacity <= MAX_CAPACITY && (cv == NotFull ==> !NobodyAdds(rights))
    ensures CanRun(Start(capacity, rights), rights, steps)
    ensures Exhausted(Run(Start(capacity, rights), rights, steps), rights, cv)
  {
    StartQuiet<T>(capacity, rights);
    if cv == NotEmpty {
      steps := [];
    } else {
      var t: nat :| t < |rights| && !(rights[t] !! ADDERS);
      var k :| k in rights[t] * ADDERS;
      steps := FillUp(Start(capacity, rights), rights, t, Adding(k, x));
    }
  }

  // ---------------------------------------------------------------------------------------------
  // A supplier without the mutex slips by
  // ---------------------------------------------------------------------------------------------

  /** The supplier passes its guard, and then the waiting call finds nothing. */
  lemma BothDecided<T>(s: State<T>, rights: Rights, p: nat, r: nat, wait: Call<T>, supply: Call<T>)
    requires Free(s, rights) && p < |rights| && r < |rights| && p != r && s.pcs[p].Idle? && s.pcs[r].Idle?
    requires wait.Kind() in rights[p] && Guard(s.ring, wait, Initial).Wait?
    requires supply.Kind() in rights[r] && supply.Timed() && Guard(s.ring, supply, Initial).Proceed?
    ensures CanRun(s, rights, CommitSteps(r, supply) + HesitateSteps(p, wait))
    ensures var end := Run(s, rights, CommitSteps(r, supply) + HesitateSteps(p, wait));
            end.ring == s.ring && end.pcs == s.pcs[r := Mutating(supply, Initial)][p := Parking(wait)]
  {
    CommitRuns(s, rights, r, supply);
    HesitateRuns(Committed(s, r, supply), rights, p, wait);
    RunOn(s, rights, CommitSteps(r, supply), HesitateSteps(p, wait));
  }

  /** Then the supplier supplies, finds nobody to notify, and the waiting call goes to sleep. */
  lemma SlipsBy<T>(s: State<T>, rights: Rights, p: nat, r: nat, wait: Call<T>, supply: Call<T>)
    requires s.ring.Usable() && |s.pcs| == |rights| && p < |rights| && r < |rights| && p != r
    requires s.pcs[p] == Parking(wait) && s.pcs[r] == Mutating(supply, Initial)
    requires supply.Timed() && !supply.Outcome(s.ring).Throws?
    requires forall t: nat | t < |s.pcs| && t != p && t != r :: s.pcs[t].Idle?
    ensures CanRun(s, rights, FinishSteps(r) + [Sleep(p)])
    ensures var end := Run(s, rights, FinishSteps(r) + [Sleep(p)]);
            && end.ring == s.ring.Next(supply.Operation()) && end.owner == None
            && end.pcs == s.pcs[r := Idle][p := Sleeping(wait)]
  {
    FinishRuns(s, rights, r, supply);
    var s1 := Run(s, rights, FinishSteps(r));
    One(s1, rights, Sleep(p), []);
    RunOn(s, rights, FinishSteps(r), [Sleep(p)]);
  }

  lemma SlipRun<T>(s: State<T>, rights: Rights, p: nat, r: nat, wait: Call<T>, supply: Call<T>)
    returns (steps: seq<Step<T>>)
    requires Free(s, rights) && p < |rights| && r < |rights| && p != r && forall t: nat | t < |s.pcs| :: s.pcs[t].Idle?
    requires wait.Kind() in rights[p] && Guard(s.ring, wait, Initial).Wait?
    requires supply.Kind() in rights[r] && supply.Timed() && Guard(s.ring, supply, Initial).Proceed?
    requires !supply.Outcome(s.ring).Throws?
    ensures CanRun(s, rights, steps)
    ensures var end := Run(s, rights, steps);
            && end.ring == s.ring.Next(supply.Operation()) && end.owner == None
            && end.pcs == s.pcs[p := Sleeping(wait)]
  {
    BothDecided(s, rights, p, r, wait, supply);
    var decide, slip := CommitSteps(r, supply) + HesitateSteps(p, wait), FinishSteps<T>(r) + [Sleep(p)];
    SlipsBy(Run(s, rights, decide), rights, p, r, wait, supply);
    RunOn(s, rights, decide, slip);
    steps := decide + slip;
  }

  lemma SlipFrom<T>(s: State<T>, rights: Rights, x: T, cv: ConditionVariable, p: nat, r: nat, k: Kind)
    returns (steps: seq<Step<T>>)
    requires Exhausted(s, rights, cv) && p < |rights| && r < |rights| && p != r
    requires UnlockedSupplier(cv) in rights[r] && k in rights[p] && k in Sleepers(cv)
    ensures CanRun(s, rights, steps)
    ensures var end := Run(s, rights, steps); Overlooked(end, p, cv) && end.pcs[p] == Sleeping(Waiting(cv, k, x))
  {
    var wait, supply := Waiting(cv, k, x), Supplying(cv, UnlockedSupplier(cv), x);
    AtExhaustion(s.ring, cv, k, UnlockedSupplier(cv), x);
    steps := SlipRun(s, rights, p, r, wait, supply);
  }

  /** Whenever one thread can sleep on `cv` and another can supply it without the mutex, at every
      capacity some run leaves the first asleep beside what it waits for, with nobody to wake it. */
  lemma UnlockedSupplierLosesWakeup<T>(capacity: nat, rights: Rights, x: T, cv: ConditionVariable,
                                       p: nat, r: nat, k: Kind)
    returns (steps: seq<Step<T>>)
    requires 0 < capacity <= MAX_CAPACITY && (cv == NotFull ==> !NobodyAdds(rights))
    requires p < |rights| && r < |rights| && p != r
    requires UnlockedSupplier(cv) in rights[r] && k in rights[p] && k in Sleepers(cv)
    ensures CanRun(Start(capacity, rights), rights, steps)
    ensures var end := Run(Start(capacity, rights), rights, steps);
            Overlooked(end, p, cv) && end.pcs[p] == Sleeping(Waiting(cv, k, x))
  {
    var exhaust := Exhaust(capacity, rights, x, cv);
    var slip := SlipFrom(Run(Start(capacity, rights), rights, exhaust), rights, x, cv, p, r, k);
    RunOn(Start(capacity, rights), rights, exhaust, slip);
    steps := exhaust + slip;
  }

  // ---------------------------------------------------------------------------------------------
  // A watcher takes the wake-up
  // ---------------------------------------------------------------------------------------------

  function Watching<T>(cv: ConditionVariable): (call: Call<T>)
    ensures call.Kind() == Watcher(cv) && call.WaitsOn() == cv && call.CanWait()
  {
    if cv == NotFull then WaitNotFull else WaitNotEmpty
  }

  function HandOverSteps<T>(r: nat, w: nat): seq<Step<T>> {
    [Notify(r, Some(w)), Unlock(r), Return(r)]
  }

  function WatchedSteps<T>(w: nat): seq<Step<T>> {
    [Lock(w), Test(w)] + [Unlock(w), Return(w)]
  }

  lemma HandOverRuns<T>(s: State<T>, rights: Rights, cv: ConditionVariable, r: nat, w: nat)
    requires s.ring.Usable() && |s.pcs| == |rights| && r < |s.pcs| && w < |s.pcs| && r != w
    requires s.pcs[r].Notifying? && !s.pcs[r].call.Timed() && !s.pcs[r].call.ClearAll?
    requires s.pcs[r].call.Notifies() == cv && s.pcs[w] == Sleeping(Watching(cv))
    ensures CanRun(s, rights, HandOverSteps(r, w))
    ensures var end := Run(s, rights, HandOverSteps(r, w));
            && end.ring == s.ring && end.owner == None
            && end.pcs == s.pcs[w := Entering(Watching(cv), Signalled)][r := Idle]
  {
    var s1 := Apply(s, rights, Notify(r, Some(w)));
    var s2 := Apply(s1, rights, Unlock(r));
    var s3 := Apply(s2, rights, Return(r));
    assert s3.pcs == s.pcs[w := Entering(Watching(cv), Signalled)][r := Idle];
    One(s2, rights, Return(r), []);
    One(s1, rights, Unlock(r), [Return(r)]);
    One(s, rights, Notify(r, Some(w)), [Unlock(r), Return(r)]);
    assert HandOverSteps<T>(r, w) == [Notify(r, Some(w))] + [Unlock(r), Return(r)];
  }

  lemma WatchedFinds<T>(s: State<T>, rights: Rights, cv: ConditionVariable, w: nat)
    requires Free(s, rights) && w < |s.pcs| && s.pcs[w] == Entering(Watching(cv), Signalled) && Supply(s.ring, cv) == 1
    ensures CanRun(s, rights, [Lock(w), Test(w)])
    ensures var end := Run(s, rights, [Lock(w), Test(w)]);
            end.ring == s.ring && end.owner == Some(w) && end.pcs == s.pcs[w := Leaving(Watching(cv), Truth(true))]
  {
    var s1 := Apply(s, rights, Lock(w));
    assert Guard(s1.ring, Watching(cv), Signalled) == Answered(Truth(true));
    var s2 := Apply(s1, rights, Test(w));
    assert s2.pcs == s.pcs[w := Leaving(Watching(cv), Truth(true))];
    One(s1, rights, Test(w), []);
    One(s, rights, Lock(w), [Test(w)]);
  }

  lemma LeaveRuns<T>(s: State<T>, rights: Rights, w: nat)
    requires s.ring.Usable() && w < |s.pcs| == |rights| && s.pcs[w].Leaving?
    ensures CanRun(s, rights, [Unlock(w), Return(w)])
    ensures var end := Run(s, rights, [Unlock(w), Return(w)]);
            end.ring == s.ring && end.owner == None && end.pcs == s.pcs[w := Idle]
  {
    var s1 := Apply(s, rights, Unlock(w));
    assert Apply(s1, rights, Return(w)).pcs == s.pcs[w := Idle];
    One(s1, rights, Return(w), []);
    One(s, rights, Unlock(w), [Return(w)]);
  }

  lemma WatchedRuns<T>(s: State<T>, rights: Rights, cv: ConditionVariable, w: nat)
    requires Free(s, rights) && w < |s.pcs| && s.pcs[w] == Entering(Watching(cv), Signalled) && Supply(s.ring, cv) == 1
    ensures CanRun(s, rights, WatchedSteps(w))
    ensures var end := Run(s, rights, WatchedSteps(w));
            end.ring == s.ring && end.owner == None && end.pcs == s.pcs[w := Idle]
  {
    WatchedFinds(s, rights, cv, w);
    var s1 := Run(s, rights, [Lock(w), Test(w)]);
    LeaveRuns(s1, rights, w);
    RunOn(s, rights, [Lock(w), Test(w)], [Unlock(w), Return(w)]);
    assert s1.pcs[w := Idle] == s.pcs[w := Idle];
  }

  /** With a watcher asleep, a supplier may wake the watcher. */
  lemma WatcherTakes<T>(s: State<T>, rights: Rights, cv: ConditionVariable, w: nat, r: nat, supply: Call<T>)
    requires Free(s, rights) && w < |rights| && r < |rights| && w != r
    requires s.pcs[r].Idle? && s.pcs[w] == Sleeping(Watching(cv))
    requires supply.Kind() in rights[r] && !supply.Timed() && !supply.ClearAll? && (supply.Adds() || supply.Removes())
    requires supply.Notifies() == cv
    requires Guard(s.ring, supply, Initial).Proceed? && !supply.Outcome(s.ring).Throws?
    ensures CanRun(s, rights, LockedFirst(r, supply) + HandOverSteps(r, w))
    ensures var end := Run(s, rights, LockedFirst(r, supply) + HandOverSteps(r, w));
            && end.ring == s.ring.Next(supply.Operation()) && end.owner == None
            && end.pcs == s.pcs[w := Entering(Watching(cv), Signalled)]
  {
    LockedFirstRuns(s, rights, r, supply);
    var s1 := Run(s, rights, LockedFirst(r, supply));
    HandOverRuns(s1, rights, cv, r, w);
    RunOn(s, rights, LockedFirst(r, supply), HandOverSteps(r, w));
    assert s1.pcs[w := Entering(Watching(cv), Signalled)][r := Idle] == s.pcs[w := Entering(Watching(cv), Signalled)];
  }

  /** Both go to sleep. */
  lemma BothAsleep<T>(s: State<T>, rights: Rights, cv: ConditionVariable, p: nat, w: nat, wait: Call<T>)
    requires Free(s, rights) && p < |rights| && w < |rights| && p != w && s.pcs[p].Idle? && s.pcs[w].Idle?
    requires wait.Kind() in rights[p] && Watcher(cv) in rights[w]
    requires Guard(s.ring, wait, Initial).Wait? && Guard(s.ring, Watching(cv), Initial).Wait?
    ensures CanRun(s, rights, ParkSteps(p, wait) + ParkSteps(w, Watching(cv)))
    ensures var end := Run(s, rights, ParkSteps(p, wait) + ParkSteps(w, Watching(cv)));
            && end.ring == s.ring && end.owner == None
            && end.pcs == s.pcs[p := Sleeping(wait)][w := Sleeping(Watching(cv))]
  {
    ParkRuns(s, rights, p, wait);
    ParkRuns(Run(s, rights, ParkSteps(p, wait)), rights, w, Watching(cv));
    RunOn(s, rights, ParkSteps(p, wait), ParkSteps(w, Watching(cv)));
  }

  /** Someone supplies `cv`, and the notification goes to the watcher. */
  lemma DecoyWoken<T>(s: State<T>, rights: Rights, cv: ConditionVariable, p: nat, w: nat, r: nat, supply: Call<T>)
    requires Free(s, rights) && Supply(s.ring, cv) == 0
    requires p < |rights| && w < |rights| && r < |rights| && p != w && w != r && p != r
    requires s.pcs[p].SleepsOn(cv) && s.pcs[w] == Sleeping(Watching(cv))
    requires forall t: nat | t < |s.pcs| && t != p && t != w :: s.pcs[t].Idle?
    requires supply.Kind() in rights[r] && supply.Kind() in Suppliers(cv) && supply.Kind() != UnlockedSupplier(cv)
    ensures CanRun(s, rights, LockedFirst(r, supply) + HandOverSteps(r, w))
    ensures var end := Run(s, rights, LockedFirst(r, supply) + HandOverSteps(r, w));
            && Free(end, rights) && Supply(end.ring, cv) == 1
            && end.pcs == s.pcs[w := Entering(Watching(cv), Signalled)]
  {
    WatcherTakes(s, rights, cv, w, r, supply);
  }

  /** The watcher, woken, finds what it watches for, returns, and uses nothing up. */
  lemma DecoyTakes<T>(s: State<T>, rights: Rights, x: T, cv: ConditionVariable, p: nat, w: nat, r: nat, j: Kind)
    returns (steps: seq<Step<T>>)
    requires Free(s, rights) && Supply(s.ring, cv) == 0
    requires p < |rights| && w < |rights| && r < |rights| && p != w && w != r && p != r
    requires s.pcs[p].SleepsOn(cv) && s.pcs[w] == Sleeping(Watching(cv))
    requires forall t: nat | t < |s.pcs| && t != p && t != w :: s.pcs[t].Idle?
    requires j in rights[r] && j in Suppliers(cv) && j != UnlockedSupplier(cv)
    ensures CanRun(s, rights, steps) && Overlooked(Run(s, rights, steps), p, cv)
  {
    var supply := Supplying(cv, j, x);
    DecoyWoken(s, rights, cv, p, w, r, supply);
    var take := LockedFirst(r, supply) + HandOverSteps(r, w);
    WatchedRuns(Run(s, rights, take), rights, cv, w);
    RunOn(s, rights, take, WatchedSteps(w));
    steps := take + WatchedSteps(w);
  }

  lemma DecoyFrom<T>(s: State<T>, rights: Rights, x: T, cv: ConditionVariable, p: nat, w: nat, r: nat, k: Kind, j: Kind)
    returns (steps: seq<Step<T>>)
    requires Exhausted(s, rights, cv)
    requires p < |rights| && w < |rights| && r < |rights| && p != w && w != r && p != r
    requires Watcher(cv) in rights[w] && k in rights[p] && k in Sleepers(cv)
    requires j in rights[r] && j in Suppliers(cv) && j != UnlockedSupplier(cv)
    ensures CanRun(s, rights, steps) && Overlooked(Run(s, rights, steps), p, cv)
  {
    var wait := Waiting(cv, k, x);
    AtExhaustion(s.ring, cv, k, j, x);
    AtExhaustion(s.ring, cv, Watcher(cv), j, x);
    BothAsleep(s, rights, cv, p, w, wait);
    var park := ParkSteps(p, wait) + ParkSteps(w, Watching(cv));
    var rest := DecoyTakes(Run(s, rights, park), rights, x, cv, p, w, r, j);
    RunOn(s, rights, park, rest);
    steps := park + rest;
  }

  /** Whenever one thread may watch `cv`, a second can sleep on it and a third can supply it, at every
      capacity some run leaves the second asleep beside what it waits for: the watcher took the
      wake-up. */
  lemma WatcherLosesWakeup<T>(capacity: nat, rights: Rights, x: T, cv: ConditionVariable,
                              p: nat, w: nat, r: nat, k: Kind, j: Kind)
    returns (steps: seq<Step<T>>)
    requires 0 < capacity <= MAX_CAPACITY && (cv == NotFull ==> !NobodyAdds(rights))
    requires p < |rights| && w < |rights| && r < |rights| && p != w && w != r && p != r
    requires Watcher(cv) in rights[w] && k in rights[p] && k in Sleepers(cv)
    requires j in rights[r] && j in Suppliers(cv) && j != UnlockedSupplier(cv)
    ensures CanRun(Start(capacity, rights), rights, steps)
    ensures Overlooked(Run(Start(capacity, rights), rights, steps), p, cv)
  {
    var exhaust := Exhaust(capacity, rights, x, cv);
    var rest := DecoyFrom(Run(Start(capacity, rights), rights, exhaust), rights, x, cv, p, w, r, k, j);
    RunOn(Start(capacity, rights), rights, exhaust, rest);
    steps := exhaust + rest;
  }

  // ---------------------------------------------------------------------------------------------
  // The exact condition
  // ---------------------------------------------------------------------------------------------

  lemma LosingRun<T>(capacity: nat, rights: Rights, x: T, cv: ConditionVariable)
    returns (steps: seq<Step<T>>, p: nat)
    requires 0 < capacity <= MAX_CAPACITY && !Wakeful(rights, cv)
    ensures CanRun(Start(capacity, rights), rights, steps)
    ensures Overlooked(Run(Start(capacity, rights), rights, steps), p, cv)
  {
    if !NoSlip(rights, cv) {
      var r: nat;
      p, r :| p < |rights| && r < |rights| && p != r && UnlockedSupplier(cv) in rights[r]
              && !(rights[p] !! Sleepers(cv));
      var k :| k in rights[p] * Sleepers(cv);
      steps := UnlockedSupplierLosesWakeup(capacity, rights, x, cv, p, r, k);
    } else {
      var w: nat, r: nat;
      w, p, r :| w < |rights| && p < |rights| && r < |rights| && w != p && p != r && w != r
                 && Watcher(cv) in rights[w] && !(rights[r] !! Suppliers(cv)) && !(rights[p] !! Sleepers(cv));
      var k :| k in rights[p] * Sleepers(cv);
      var j :| j in rights[r] * Suppliers(cv);
      steps := WatcherLosesWakeup(capacity, rights, x, cv, p, w, r, k, j);
    }
  }

  /** No run loses a wake-up of `cv` exactly under wakeful rights: nobody can sleep on it while another
      thread supplies it without the mutex, and no watcher can take a wake-up from somebody else. */
  lemma WakeupsKeptIff<T>(capacity: nat, rights: Rights, x: T, cv: ConditionVariable)
    requires 0 < capacity <= MAX_CAPACITY
    ensures (forall steps: seq<Step<T>> | IsRun(capacity, rights, steps) ::
               WakeupsKept(EndOf(capacity, rights, steps), cv))
       <==> Wakeful(rights, cv)
  {
    if Wakeful(rights, cv) {
      forall steps: seq<Step<T>> | IsRun(capacity, rights, steps)
        ensures WakeupsKept(EndOf(capacity, rights, steps), cv)
      {
        NoLostWakeup(capacity, rights, steps, cv);
      }
    } else {
      var steps, p := LosingRun(capacity, rights, x, cv);
      OverlookedIsLost(EndOf(capacity, rights, steps), p, cv);
      assert IsRun(capacity, rights, steps) && !WakeupsKept(EndOf(capacity, rights, steps), cv);
    }
  }

  // ---------------------------------------------------------------------------------------------
  // Stranded
  // ---------------------------------------------------------------------------------------------

  /** A call that only looks for elements. */
  predicate OnlyTakes<T>(call: Call<T>) {
    call.PopFront? || call.TryPopFront? || call.PopFrontTimed? || call.WaitNotEmpty? || call.Inspect?
  }

  /** Thread `p` sleeps on `not_full_` beside an empty ring, and everybody else only looks for elements. */
  ghost predicate Stranded<T>(s: State<T>, p: nat, call: Call<T>) {
    && s.ring.Usable() && s.ring.count == 0
    && p < |s.pcs| && s.pcs[p] == Sleeping(call) && call.WaitsOn() == NotFull && !call.CanExpire()
    && forall t: nat | t < |s.pcs| && t != p :: !s.pcs[t].Notifying? && (!s.pcs[t].Idle? ==> OnlyTakes(s.pcs[t].call))
  }

  /** No spurious wake-up, and new calls only look for elements. */
  predicate OnlyTaking<T>(step: Step<T>) {
    !step.Stir? && (step.Begin? ==> OnlyTakes(step.call))
  }

  lemma {:induction false} StrandedStays<T>(s: State<T>, rights: Rights, p: nat, call: Call<T>, steps: seq<Step<T>>)
    requires Stranded(s, p, call) && CanRun(s, rights, steps)
    requires forall i | 0 <= i < |steps| :: OnlyTaking(steps[i])
    ensures Stranded(Run(s, rights, steps), p, call)
    decreases |steps|
  {
    if steps != [] {
      assert OnlyTaking(steps[0]);
      var s' := Apply(s, rights, steps[0]);
      forall t: nat | t < |s'.pcs| && t != p
        ensures !s'.pcs[t].Notifying? && (!s'.pcs[t].Idle? ==> OnlyTakes(s'.pcs[t].call))
      {
        if t != steps[0].t {
          OthersStay(s, rights, steps[0], t);
        }
      }
      OthersStay(s, rights, steps[0], p);
      assert forall i | 0 <= i < |steps[1..]| :: steps[1..][i] == steps[i + 1];
      StrandedStays(s', rights, p, call, steps[1..]);
    }
  }

  /** The threads `rs` are past the guard of a timed removal, `p` is at `pc`, and the others are idle. */
  ghost predicate LinedUp<T>(s: State<T>, rights: Rights, p: nat, pc: Pc<T>, rs: set<nat>) {
    && s.ring.Usable() && |s.pcs| == |rights|
    && p < |s.pcs| && s.pcs[p] == pc && p !in rs
    && (forall r: nat | r in rs :: r < |s.pcs|)
    && forall t: nat | t < |s.pcs| && t != p :: s.pcs[t] == if t in rs then Mutating(PopFrontTimed, Initial) else Idle
  }

  lemma LineUpOne<T>(s: State<T>, rights: Rights, p: nat, rs: set<nat>, r: nat)
    requires Free(s, rights) && 0 < s.ring.count && LinedUp(s, rights, p, Idle, rs)
    requires r !in rs && r != p && r < |rights| && KPopFrontTimed in rights[r]
    ensures CanRun(s, rights, CommitSteps(r, PopFrontTimed))
    ensures var end := Run(s, rights, CommitSteps(r, PopFrontTimed));
            end.ring == s.ring && end.owner == None && LinedUp(end, rights, p, Idle, rs + {r})
  {
    CommitRuns(s, rights, r, PopFrontTimed);
  }

  /** One after the other, any number of threads can pass the guard of a timed removal. */
  lemma {:induction false} LineUp<T>(s: State<T>, rights: Rights, p: nat, rs: set<nat>) returns (steps: seq<Step<T>>)
    requires Free(s, rights) && 0 < s.ring.count && LinedUp(s, rights, p, Idle, {}) && p !in rs
    requires forall r: nat | r in rs :: r < |rights| && KPopFrontTimed in rights[r]
    ensures CanRun(s, rights, steps)
    ensures var end := Run(s, rights, steps);
            end.ring == s.ring && end.owner == None && LinedUp(end, rights, p, Idle, rs)
    decreases |rs|
  {
    if rs == {} {
      steps := [];
    } else {
      var r :| r in rs;
      var first := LineUp(s, rights, p, rs - {r});
      LineUpOne(Run(s, rights, first), rights, p, rs - {r}, r);
      RunOn(s, rights, first, CommitSteps(r, PopFrontTimed));
      steps := first + CommitSteps(r, PopFrontTimed);
      assert rs == rs - {r} + {r};
    }
  }

  lemma TakeOne<T>(s: State<T>, rights: Rights, p: nat, call: Call<T>, rs: set<nat>, r: nat)
    requires s.owner == Some(p) && LinedUp(s, rights, p, Parking(call), rs) && r in rs && 0 < s.ring.count
    ensures CanRun(s, rights, FinishSteps(r))
    ensures var end := Run(s, rights, FinishSteps(r));
            && end.owner == Some(p) && LinedUp(end, rights, p, Parking(call), rs - {r})
            && end.ring.count == s.ring.count - 1
  {
    assert s.pcs[r] == Mutating(PopFrontTimed, Initial);
    FinishRuns(s, rights, r, PopFrontTimed);
  }

  /** While `p` holds the mutex, about to wait, they all remove, and find nobody to notify. */
  lemma {:induction false} TakeAll<T>(s: State<T>, rights: Rights, p: nat, call: Call<T>, rs: set<nat>)
    returns (steps: seq<Step<T>>)
    requires s.owner == Some(p) && LinedUp(s, rights, p, Parking(call), rs) && |rs| <= s.ring.count
    ensures CanRun(s, rights, steps)
    ensures var end := Run(s, rights, steps);
            && end.owner == Some(p) && LinedUp(end, rights, p, Parking(call), {})
            && end.ring.count == s.ring.count - |rs|
    decreases |rs|
  {
    if rs == {} {
      steps := [];
    } else {
      var r :| r in rs;
      TakeOne(s, rights, p, call, rs, r);
      var rest := TakeAll(Run(s, rights, FinishSteps(r)), rights, p, call, rs - {r});
      RunOn(s, rights, FinishSteps(r), rest);
      steps := FinishSteps(r) + rest;
    }
  }

  lemma Hesitates<T>(s: State<T>, rights: Rights, p: nat, call: Call<T>, rs: set<nat>)
    requires Free(s, rights) && LinedUp(s, rights, p, Idle, rs) && s.ring.full
    requires (call.PushBack? || call.EmplaceBack?) && call.Kind() in rights[p]
    ensures CanRun(s, rights, HesitateSteps(p, call))
    ensures var end := Run(s, rights, HesitateSteps(p, call));
            end.ring == s.ring && end.owner == Some(p) && LinedUp(end, rights, p, Parking(call), rs)
  {
    HesitateRuns(s, rights, p, call);
  }

  lemma FallsAsleep<T>(s: State<T>, rights: Rights, p: nat, call: Call<T>)
    requires LinedUp(s, rights, p, Parking(call), {}) && (call.PushBack? || call.EmplaceBack?) && s.ring.count == 0
    ensures CanRun(s, rights, [Sleep(p)]) && Stranded(Run(s, rights, [Sleep(p)]), p, call)
  {
  }

  /** From a full ring, with as many threads past their guards as it has elements, the inserter ends up
      asleep beside an empty ring. */
  lemma SleepsOverAll<T>(s: State<T>, rights: Rights, p: nat, call: Call<T>, rs: set<nat>)
    returns (steps: seq<Step<T>>)
    requires Free(s, rights) && LinedUp(s, rights, p, Idle, rs) && |rs| == s.ring.count && s.ring.full
    requires (call.PushBack? || call.EmplaceBack?) && call.Kind() in rights[p]
    ensures CanRun(s, rights, steps) && Stranded(Run(s, rights, steps), p, call)
  {
    Hesitates(s, rights, p, call, rs);
    var s1 := Run(s, rights, HesitateSteps(p, call));
    var take := TakeAll(s1, rights, p, call, rs);
    FallsAsleep(Run(s1, rights, take), rights, p, call);
    RunOn(s1, rights, take, [Sleep(p)]);
    RunOn(s, rights, HesitateSteps(p, call), take + [Sleep(p)]);
    steps := HesitateSteps(p, call) + (take + [Sleep(p)]);
  }

  lemma StrandingRun<T>(capacity: nat, rights: Rights, x: T, p: nat, rs: set<nat>, k: Kind)
    returns (steps: seq<Step<T>>)
    requires 0 < capacity <= MAX_CAPACITY && |rs| == capacity
    requires p < |rights| && k in rights[p] && k in {KPushBack, KEmplaceBack}
    requires p !in rs && forall r: nat | r in rs :: r < |rights| && KPopFrontTimed in rights[r]
    ensures CanRun(Start(capacity, rights), rights, steps)
    ensures Stranded(Run(Start(capacity, rights), rights, steps), p, Adding(k, x))
  {
    var s0 := Start<T>(capacity, rights);
    StartQuiet<T>(capacity, rights);
    var fill := FillUp(s0, rights, p, Adding(k, x));
    var s1 := Run(s0, rights, fill);
    var line := LineUp(s1, rights, p, rs);
    RunOn(s0, rights, fill, line);
    var rest := SleepsOverAll(Run(s1, rights, line), rights, p, Adding(k, x), rs);
    RunOn(s0, rights, fill + line, rest);
    steps := fill + line + rest;
  }

  /** At every capacity, with a blocking inserter and that many threads that may remove with a time-out:
      some run leads to a state from which, however long the others go on looking for elements, the
      inserter never wakes, its call never returns and the ring stays empty, unless the inserter is woken
      spuriously. */
  lemma TimedRemovalStrandsInserter<T>(capacity: nat, rights: Rights, x: T, p: nat, removers: set<nat>, k: Kind)
    returns (steps: seq<Step<T>>)
    requires 0 < capacity <= MAX_CAPACITY && |removers| == capacity
    requires p < |rights| && k in rights[p] && k in {KPushBack, KEmplaceBack}
    requires p !in removers && forall r: nat | r in removers :: r < |rights| && KPopFrontTimed in rights[r]
    ensures CanRun(Start(capacity, rights), rights, steps)
    ensures var s := Run(Start(capacity, rights), rights, steps);
            forall later: seq<Step<T>>
              | CanRun(s, rights, later) && (forall i | 0 <= i < |later| :: OnlyTaking(later[i])) ::
              var end := Run(s, rights, later); end.pcs[p] == s.pcs[p] && end.pcs[p].Sleeping? && end.ring.count == 0
  {
    steps := StrandingRun(capacity, rights, x, p, removers, k);
    var s := Run(Start(capacity, rights), rights, steps);
    forall later: seq<Step<T>> | CanRun(s, rights, later) && (forall i | 0 <= i < |later| :: OnlyTaking(later[i]))
      ensures var end := Run(s, rights, later); end.pcs[p] == s.pcs[p] && end.pcs[p].Sleeping? && end.ring.count == 0
    {
      StrandedStays(s, rights, p, Adding(k, x), later);
    }
  }
}
