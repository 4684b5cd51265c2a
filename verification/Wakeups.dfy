/** No wake-up is lost: who sleeps, who has been summoned, and who still owes a notification. */
module Wakeups {
  import opened Indices
  import opened RingModel
  import opened Monitor
  import opened Tallies
  import opened Safety

  /** What the sleepers of `cv` wait for: free slots, or elements. */
  function Supply<T>(ring: Ring<T>, cv: ConditionVariable): nat
    requires ring.WellFormed()
  {
    if cv == NotFull then |ring.slots| - ring.count else ring.count
  }

  /** A clear has emptied the ring and is about to notify everybody. */
  ghost predicate ClearPending<T>(s: State<T>) {
    exists t: nat :: t < |s.pcs| && s.pcs[t].Notifying? && s.pcs[t].call.ClearAll?
  }

  /** The calls that can sleep on `cv`. */
  function Sleepers(cv: ConditionVariable): set<Kind> {
    if cv == NotFull then {KPushBack, KEmplaceBack, KPushBackTimed, KWaitNotFull}
    else {KPopFrontTimed, KWaitNotEmpty}
  }

  /** The calls that raise the supply of `cv` and wake one sleeper. */
  function Suppliers(cv: ConditionVariable): set<Kind> {
    if cv == NotFull then {KPopFront, KTryPopFront, KPopFrontTimed} else ADDERS
  }

  /** The one of them that does so without the mutex. */
  function UnlockedSupplier(cv: ConditionVariable): Kind {
    if cv == NotFull then KPopFrontTimed else KPushBackTimed
  }

  /** The call that waits on `cv` and uses nothing up. */
  function Watcher(cv: ConditionVariable): Kind {
    if cv == NotFull then KWaitNotFull else KWaitNotEmpty
  }

  /** Nobody can sleep on `cv` while another thread can supply it without the mutex. */
  predicate NoSlip(rights: Rights, cv: ConditionVariable) {
    forall p: nat, r: nat | p < |rights| && r < |rights| && p != r && UnlockedSupplier(cv) in rights[r] ::
      rights[p] !! Sleepers(cv)
  }

  /** No third thread can wake a watcher while somebody else can sleep on `cv`. */
  predicate NoDecoy(rights: Rights, cv: ConditionVariable) {
    forall w: nat, p: nat, r: nat | w < |rights| && p < |rights| && r < |rights| && w != p && p != r && w != r
                                    && Watcher(cv) in rights[w] && !(rights[r] !! Suppliers(cv)) ::
      rights[p] !! Sleepers(cv)
  }

  /** The rights under which no wake-up is lost; on `not_full_` also when nobody ever inserts. */
  predicate Wakeful(rights: Rights, cv: ConditionVariable) {
    || (cv == NotFull && NobodyAdds(rights))
    || (NoSlip(rights, cv) && NoDecoy(rights, cv))
  }

  /** While somebody sleeps on `cv`, the supply is at most what is on its way to be used up: the
      summoned threads and the notifications still owed. */
  predicate Covered<T>(s: State<T>, cv: ConditionVariable)
    requires s.ring.WellFormed()
  {
    || Total(s.pcs, Asleep(cv)) == 0
    || Supply(s.ring, cv) <= Total(s.pcs, Summoned(cv)) + Total(s.pcs, Owing(cv))
  }

  /** Covered, or a clear is about to wake everybody. */
  ghost predicate WakeupsKept<T>(s: State<T>, cv: ConditionVariable)
    requires s.ring.WellFormed()
  {
    Covered(s, cv) || (cv == NotFull && ClearPending(s))
  }

  /** A thread about to wait for `cv` still has reason to. */
  ghost predicate ParkedRightly<T>(s: State<T>, cv: ConditionVariable)
    requires s.ring.WellFormed()
  {
    forall t: nat | t < |s.pcs| && s.pcs[t].Parking? && s.pcs[t].call.WaitsOn() == cv :: Supply(s.ring, cv) == 0
  }

  ghost predicate Attended<T>(s: State<T>, rights: Rights, cv: ConditionVariable) {
    && Orderly(s, rights)
    && ParkedRightly(s, cv)
    && WakeupsKept(s, cv)
  }

  /** A thread that may make a call of both kinds meets the sleepers' side of a rule. */
  lemma MaySleep<T>(s: State<T>, rights: Rights, u: nat, cv: ConditionVariable)
    requires Orderly(s, rights) && u < |s.pcs| && (s.pcs[u].Parking? || s.pcs[u].Sleeping?)
    requires s.pcs[u].call.WaitsOn() == cv
    ensures !(rights[u] !! Sleepers(cv))
  {
    assert ThreadOk(s, rights, u);
    assert s.pcs[u].call.Kind() in rights[u] * Sleepers(cv);
  }

  lemma ParkedRightlyNext<T>(s: State<T>, rights: Rights, cv: ConditionVariable, step: Step<T>)
    requires NoSlip(rights, cv) && Orderly(s, rights) && ParkedRightly(s, cv) && Enabled(s, rights, step)
    ensures ParkedRightly(Apply(s, rights, step), cv)
  {
    var s' := Apply(s, rights, step);
    forall u: nat | u < |s'.pcs| && s'.pcs[u].Parking? && s'.pcs[u].call.WaitsOn() == cv
      ensures Supply(s'.ring, cv) == 0
    {
      assert ThreadOk(s, rights, step.t) && ThreadOk(s, rights, u);
      if u != step.t {
        OthersStay(s, rights, step, u);
        MaySleep(s, rights, u, cv);
      }
    }
  }

  /** A thread that supplies `cv` and is not the sleeper or the watcher breaks the rule. */
  lemma Decoyed(rights: Rights, cv: ConditionVariable, w: nat, p: nat, r: nat, k: Kind)
    requires NoDecoy(rights, cv) && w < |rights| && p < |rights| && r < |rights|
    requires w != p && Watcher(cv) in rights[w] && k in rights[r] && k in Suppliers(cv)
    requires !(rights[p] !! Sleepers(cv))
    ensures r == w || r == p
  {
  }

  /** A clear stays pending until its own notification. */
  lemma ClearStaysPending<T>(s: State<T>, rights: Rights, step: Step<T>)
    requires s.ring.Usable() && Enabled(s, rights, step) && ClearPending(s)
    requires !(step.Notify? && s.pcs[step.t].call.ClearAll?)
    ensures ClearPending(Apply(s, rights, step))
  {
    var t: nat :| t < |s.pcs| && s.pcs[t].Notifying? && s.pcs[t].call.ClearAll?;
    OthersStay(s, rights, step, t);
    assert Apply(s, rights, step).pcs[t] == s.pcs[t];
  }

  lemma CoveredAfterOther<T>(s: State<T>, rights: Rights, cv: ConditionVariable, step: Step<T>)
    requires Orderly(s, rights) && ParkedRightly(s, cv) && Covered(s, cv) && Enabled(s, rights, step)
    requires !step.Notify? && !step.Mutate?
    ensures Covered(Apply(s, rights, step), cv)
  {
    OwnReading(s, rights, step);
    assert ThreadOk(s, rights, step.t);
  }

  lemma CoveredAfterMutate<T>(s: State<T>, rights: Rights, cv: ConditionVariable, t: nat)
    requires Orderly(s, rights) && Covered(s, cv) && Enabled(s, rights, Mutate(t))
    requires cv == NotFull ==> !s.pcs[t].call.ClearAll?
    ensures Covered(Apply(s, rights, Mutate(t)), cv)
  {
    OwnReading(s, rights, Mutate(t));
    assert ThreadOk(s, rights, t);
  }

  /** Whoever wakes a watcher wakes the only sleeper. */
  lemma WatcherAlone<T>(s: State<T>, rights: Rights, cv: ConditionVariable, t: nat, w: nat, p: nat)
    requires NoDecoy(rights, cv) && Orderly(s, rights) && Enabled(s, rights, Notify(t, Some(w)))
    requires p < |s.pcs| && s.pcs[w].SleepsOn(cv) && s.pcs[p].SleepsOn(cv) && s.pcs[w].call.Watches()
    ensures p == w
  {
    assert ThreadOk(s, rights, t) && ThreadOk(s, rights, w);
    if p != w {
      MaySleep(s, rights, p, cv);
      Decoyed(rights, cv, w, p, t, s.pcs[t].call.Kind());
    }
  }

  lemma CoveredAfterWatcher<T>(s: State<T>, rights: Rights, cv: ConditionVariable, t: nat, w: nat)
    requires NoDecoy(rights, cv) && Orderly(s, rights) && Enabled(s, rights, Notify(t, Some(w)))
    requires s.pcs[w].SleepsOn(cv) && s.pcs[w].call.Watches()
    ensures Covered(Apply(s, rights, Notify(t, Some(w))), cv)
  {
    var s' := Apply(s, rights, Notify(t, Some(w)));
    TotalZeroIff(s'.pcs, Asleep(cv));
    forall p: nat | p < |s'.pcs| ensures !s'.pcs[p].SleepsOn(cv) {
      if s'.pcs[p].SleepsOn(cv) {
        WatcherAlone(s, rights, cv, t, w, p);
      }
    }
  }

  /** A notification of one thread trades one owed notification and one sleeper for one summons. */
  lemma CoveredAfterNotify<T>(s: State<T>, rights: Rights, cv: ConditionVariable, t: nat, chosen: Option<nat>)
    requires NoDecoy(rights, cv) && Orderly(s, rights) && Covered(s, cv)
    requires Enabled(s, rights, Notify(t, chosen)) && !s.pcs[t].call.ClearAll?
    ensures Covered(Apply(s, rights, Notify(t, chosen)), cv)
  {
    NotifyReading(s, rights, t, chosen);
    if chosen == None {
      TotalZeroIff(s.pcs, Asleep(s.pcs[t].call.Notifies()));
    } else if s.pcs[chosen.value].SleepsOn(cv) && s.pcs[chosen.value].call.Watches() {
      CoveredAfterWatcher(s, rights, cv, t, chosen.value);
    }
  }

  /** A clear wakes every inserter, and changes nothing for removers. */
  lemma CoveredAfterClear<T>(s: State<T>, rights: Rights, cv: ConditionVariable, t: nat)
    requires s.ring.Usable() && Enabled(s, rights, Notify(t, None)) && s.pcs[t].call.ClearAll?
    requires cv == NotEmpty ==> Covered(s, cv)
    ensures Covered(Apply(s, rights, Notify(t, None)), cv)
  {
    if cv == NotFull {
      TotalZeroIff(Apply(s, rights, Notify(t, None)).pcs, Asleep(cv));
    } else {
      ClearReading(s, rights, t, Asleep(cv));
      ClearReading(s, rights, t, Summoned(cv));
      ClearReading(s, rights, t, Owing(cv));
    }
  }

  lemma CoveredNext<T>(s: State<T>, rights: Rights, cv: ConditionVariable, step: Step<T>)
    requires NoDecoy(rights, cv) && Orderly(s, rights) && ParkedRightly(s, cv) && Covered(s, cv)
    requires Enabled(s, rights, step)
    requires step.Notify? ==> !s.pcs[step.t].call.ClearAll?
    requires step.Mutate? && cv == NotFull ==> !s.pcs[step.t].call.ClearAll?
    ensures Covered(Apply(s, rights, step), cv)
  {
    match step {
      case Notify(t, chosen) => CoveredAfterNotify(s, rights, cv, t, chosen);
      case Mutate(t) => CoveredAfterMutate(s, rights, cv, t);
      case _ => CoveredAfterOther(s, rights, cv, step);
    }
  }

  lemma AttendedNext<T>(s: State<T>, rights: Rights, cv: ConditionVariable, step: Step<T>)
    requires NoSlip(rights, cv) && NoDecoy(rights, cv) && Attended(s, rights, cv) && Enabled(s, rights, step)
    ensures Attended(Apply(s, rights, step), rights, cv)
  {
    OrderlyNext(s, rights, step);
    ParkedRightlyNext(s, rights, cv, step);
    if step.Notify? && s.pcs[step.t].call.ClearAll? {
      CoveredAfterClear(s, rights, cv, step.t);
    } else if cv == NotFull && ClearPending(s) {
      ClearStaysPending(s, rights, step);
    } else if step.Mutate? && s.pcs[step.t].call.ClearAll? {
      if cv == NotFull {
        assert Apply(s, rights, step).pcs[step.t].Notifying?;
      } else {
        CoveredNext(s, rights, cv, step);
      }
    } else {
      CoveredNext(s, rights, cv, step);
    }
  }

  lemma {:induction false} AttendedRun<T>(s: State<T>, rights: Rights, cv: ConditionVariable, steps: seq<Step<T>>)
    requires NoSlip(rights, cv) && NoDecoy(rights, cv) && Attended(s, rights, cv) && CanRun(s, rights, steps)
    ensures Attended(Run(s, rights, steps), rights, cv)
    decreases |steps|
  {
    if steps != [] {
      AttendedNext(s, rights, cv, steps[0]);
      AttendedRun(Apply(s, rights, steps[0]), rights, cv, steps[1..]);
    }
  }

  lemma StartAttended<T>(capacity: nat, rights: Rights, cv: ConditionVariable)
    requires 0 < capacity <= MAX_CAPACITY
    ensures Attended(Start<T>(capacity, rights), rights, cv)
  {
    TotalZeroIff(Start<T>(capacity, rights).pcs, Asleep(cv));
  }

  /** Nobody waits for room in a ring that nobody fills. */
  ghost predicate NobodyWaitsForRoom<T>(s: State<T>) {
    forall t: nat | t < |s.pcs| && (s.pcs[t].Parking? || s.pcs[t].Sleeping?) :: s.pcs[t].call.WaitsOn() != NotFull
  }

  lemma {:induction false} NobodyWaitsRun<T>(s: State<T>, rights: Rights, steps: seq<Step<T>>)
    requires NobodyAdds(rights) && Orderly(s, rights) && EmptyIfNobodyAdds(s, rights) && NobodyWaitsForRoom(s)
    requires CanRun(s, rights, steps)
    ensures NobodyWaitsForRoom(Run(s, rights, steps))
    decreases |steps|
  {
    if steps != [] {
      var step, s' := steps[0], Apply(s, rights, steps[0]);
      OrderlyNext(s, rights, step);
      EmptyNext(s, rights, step);
      forall t: nat | t < |s'.pcs| && (s'.pcs[t].Parking? || s'.pcs[t].Sleeping?)
        ensures s'.pcs[t].call.WaitsOn() != NotFull
      {
        if t != step.t {
          OthersStay(s, rights, step, t);
        }
        assert ThreadOk(s, rights, step.t);
      }
      NobodyWaitsRun(s', rights, steps[1..]);
    }
  }

  /** Under wakeful rights, in every reachable state: while somebody sleeps on `not_full_`, the free
      slots are at most the woken inserters that have not inserted yet plus the removers that have not
      notified yet, or a clear is about to wake everybody; and while somebody sleeps on `not_empty_`,
      the elements are at most the woken removers that have not removed yet plus the inserters that have
      not notified yet. Woken watchers do not count: they use nothing up. */
  lemma NoLostWakeup<T>(capacity: nat, rights: Rights, steps: seq<Step<T>>, cv: ConditionVariable)
    requires 0 < capacity <= MAX_CAPACITY && Wakeful(rights, cv)
    requires CanRun(Start(capacity, rights), rights, steps)
    ensures WakeupsKept(Run(Start(capacity, rights), rights, steps), cv)
  {
    if cv == NotFull && NobodyAdds(rights) {
      NobodyWaitsRun(Start(capacity, rights), rights, steps);
      TotalZeroIff(Run(Start(capacity, rights), rights, steps).pcs, Asleep(cv));
    } else {
      StartAttended<T>(capacity, rights, cv);
      AttendedRun(Start(capacity, rights), rights, cv, steps);
    }
  }
}
