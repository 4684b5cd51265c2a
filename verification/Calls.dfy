/** Whole calls: what each call of the wrapper promises, and that its thread, left to itself, keeps it. */
module Calls {
  import opened RingModel
  import opened Monitor
  import opened Scripts
  import opened Progress
  import opened LostWakeups

  // ---------------------------------------------------------------------------------------------
  // What the calls promise
  // ---------------------------------------------------------------------------------------------

  /** Whom a call wakes. */
  datatype Notice = Nobody | OneOf(cv: ConditionVariable) | All(cv: ConditionVariable)

  datatype Promise<+T> = Promise(ring: Ring<T>, result: Result<T>, notice: Notice)

  /** What the call has to wait for is missing. */
  predicate Starved<T>(ring: Ring<T>, call: Call<T>) {
    match call.Kind()
    case KPushBack => ring.count == |ring.slots|
    case KEmplaceBack => ring.count == |ring.slots|
    case KPushBackTimed => ring.count == |ring.slots|
    case KWaitNotFull => ring.count == |ring.slots|
    case KPopFrontTimed => ring.count == 0
    case KWaitNotEmpty => ring.count == 0
    case _ => false
  }

  /** The calls that give up after a time-out. */
  const TIMED: set<Kind> := {KPushBackTimed, KPopFrontTimed, KWaitNotEmpty, KWaitNotFull}

  function Inserts<T>(ring: Ring<T>, x: T, result: Result<T>): Promise<T>
    requires ring.Usable()
  {
    Promise(ring.Next(Push(x)), result, OneOf(NotEmpty))
  }

  function Removes<T>(ring: Ring<T>): Promise<T>
    requires ring.Usable()
  {
    Promise(ring.Next(Pop), ring.Answer(Pop), OneOf(NotFull))
  }

  function Leaves<T>(ring: Ring<T>, result: Result<T>): Promise<T> {
    Promise(ring, result, Nobody)
  }

  /** The buffer, the result and the wake-ups of a call that does not wait, or no longer. */
  function Promised<T>(ring: Ring<T>, call: Call<T>): Promise<T>
    requires ring.Usable()
  {
    var room, element := ring.count < |ring.slots|, 0 < ring.count;
    match call
    case PushBack(x) => Inserts(ring, x, Done)
    case EmplaceBack(x) => Inserts(ring, x, Done)
    case TryPushBack(x) => if room then Inserts(ring, x, Truth(true)) else Leaves(ring, Truth(false))
    case PushBackTimed(x) => if room then Inserts(ring, x, Truth(true)) else Leaves(ring, Truth(false))
    case PopFront => if element then Removes(ring) else Leaves(ring, Throws(EmptyBuffer))
    case TryPopFront => if element then Removes(ring) else Leaves(ring, Nothing)
    case PopFrontTimed => if element then Removes(ring) else Leaves(ring, Nothing)
    case ClearAll => Promise(ring.Next(Clear), Done, All(NotFull))
    case WaitNotEmpty => Leaves(ring, Truth(element))
    case WaitNotFull => Leaves(ring, Truth(room))
    case Inspect(q) => Leaves(ring, ring.Ask(q))
  }

  /** The call need not wait, or its time is over. */
  predicate Ready<T>(ring: Ring<T>, call: Call<T>, wake: Wake) {
    !Starved(ring, call) || (wake.TimedOut? && call.Kind() in TIMED)
  }

  /** What the call needs is there, and it changes the buffer, or throws for lack of an element. */
  predicate GoesAhead<T>(ring: Ring<T>, call: Call<T>)
    requires ring.Usable()
  {
    !Starved(ring, call) && (Promised(ring, call).notice != Nobody || call.PopFront?)
  }

  /** The guard under the mutex waits exactly when the call is not ready, goes ahead exactly when the
      call does, and else answers what is promised. */
  lemma GuardMeans<T>(ring: Ring<T>, call: Call<T>, wake: Wake)
    requires ring.Usable()
    ensures var verdict, promise := Guard(ring, call, wake), Promised(ring, call);
            && (verdict.Wait? <==> !Ready(ring, call, wake))
            && (verdict.Proceed? <==> GoesAhead(ring, call))
            && (verdict.Answered? ==> verdict.result == promise.result && promise.ring == ring)
  {
  }

  /** Going ahead does what is promised. */
  lemma ChangeMeans<T>(ring: Ring<T>, call: Call<T>)
    requires ring.Usable() && GoesAhead(ring, call)
    ensures call.Adds() || call.Removes()
    ensures ring.Next(call.Operation()) == Promised(ring, call).ring
    ensures call.Outcome(ring) == Promised(ring, call).result
    ensures call.Outcome(ring).Throws? <==> Promised(ring, call).notice == Nobody
    ensures !call.Outcome(ring).Throws? ==>
              Promised(ring, call).notice == if call.ClearAll? then All(NotFull) else OneOf(call.Notifies())
  {
    if call.EmplaceBack? {
      assert ring.EmplaceBack(call.x) == ring.PushBack(call.x);
    }
  }

  /** Everybody else after a notice. */
  function Noticed<T>(pc: Pc<T>, u: nat, notice: Notice, chosen: Option<nat>): Pc<T> {
    match notice
    case Nobody => pc
    case OneOf(cv) => if chosen == Some(u) && pc.SleepsOn(cv) then Entering(pc.call, Signalled) else pc
    case All(cv) => if pc.SleepsOn(cv) then Entering(pc.call, Signalled) else pc
  }

  /** Who may be chosen: any sleeper, and nobody only if there is none. */
  ghost predicate MayChoose<T>(s: State<T>, notice: Notice, chosen: Option<nat>) {
    match notice
    case OneOf(cv) =>
      if chosen.Some? then chosen.value < |s.pcs| && s.pcs[chosen.value].SleepsOn(cv)
      else forall u: nat | u < |s.pcs| :: !s.pcs[u].SleepsOn(cv)
    case _ => chosen == None
  }

  /** The call of thread `t` has kept its promise and returned, and nothing else has happened. */
  ghost predicate Kept<T>(s: State<T>, t: nat, call: Call<T>, promise: Promise<T>, chosen: Option<nat>, end: State<T>) {
    && end.ring == promise.ring && end.owner == None
    && end.history == s.history + [Took(t, call, promise.result)] + [Returned(t, call, promise.result)]
    && t < |end.pcs| == |s.pcs| && end.pcs[t].Idle?
    && forall u: nat | u < |s.pcs| && u != t :: end.pcs[u] == Noticed(s.pcs[u], u, promise.notice, chosen)
  }

  /** All steps are the thread's own. */
  predicate Own<T>(steps: seq<Step<T>>, t: nat) {
    forall i | 0 <= i < |steps| :: steps[i].t == t
  }

  // ---------------------------------------------------------------------------------------------
  // One stretch at a time
  // ---------------------------------------------------------------------------------------------

  function Locked<T>(s: State<T>, t: nat, pc: Pc<T>): State<T>
    requires t < |s.pcs|
  {
    Placed(s, t, pc).(owner := Some(t))
  }

  function DecideSteps<T>(t: nat): seq<Step<T>> {
    [Lock(t), Test(t)]
  }

  /** From wanting the mutex to the decision. */
  lemma Decides<T>(s: State<T>, rights: Rights, t: nat)
    requires Free(s, rights) && t < |s.pcs| && s.pcs[t].Entering?
    ensures CanRun(s, rights, DecideSteps(t))
    ensures var end, call, wake := Run(s, rights, DecideSteps(t)), s.pcs[t].call, s.pcs[t].wake;
            match Guard(s.ring, call, wake)
            case Wait => end == Locked(s, t, Parking(call))
            case Proceed => end == Locked(s, t, if call.Timed() then Passing(call, wake) else Mutating(call, wake))
            case Answered(result) =>
              end == Locked(s, t, Leaving(call, result)).(history := s.history + [Took(t, call, result)])
  {
    var s1 := Apply(s, rights, Lock(t));
    var s2 := Apply(s1, rights, Test(t));
    One(s1, rights, Test(t), []);
    One(s, rights, Lock(t), [Test(t)]);
    assert DecideSteps<T>(t) == [Lock(t)] + [Test(t)];
    assert s2.pcs == s.pcs[t := s2.pcs[t]];
    assert s.history + [] == s.history;
  }

  function LeaveSteps<T>(t: nat): seq<Step<T>> {
    [Unlock(t), Return(t)]
  }

  /** From the answer to the return. */
  lemma Returns<T>(s: State<T>, rights: Rights, t: nat)
    requires s.ring.Usable() && t < |s.pcs| == |rights| && s.pcs[t].Leaving?
    ensures CanRun(s, rights, LeaveSteps(t))
    ensures Run(s, rights, LeaveSteps(t)) ==
            Placed(s, t, Idle).(owner := None, history := s.history + [Returned(t, s.pcs[t].call, s.pcs[t].result)])
  {
    var s1 := Apply(s, rights, Unlock(t));
    var s2 := Apply(s1, rights, Return(t));
    One(s1, rights, Return(t), []);
    One(s, rights, Unlock(t), [Return(t)]);
    assert LeaveSteps<T>(t) == [Unlock(t)] + [Return(t)];
    assert s2.pcs == s.pcs[t := Idle];
    assert s.history + [] == s.history;
  }

  function ChangeSteps<T>(t: nat, chosen: Option<nat>): seq<Step<T>> {
    [Mutate(t), Notify(t, chosen)]
  }

  /** Changing the buffer and notifying. */
  lemma Changes<T>(s: State<T>, rights: Rights, t: nat, chosen: Option<nat>)
    requires s.ring.Usable() && t < |s.pcs| == |rights| && s.pcs[t].Mutating?
    requires !Starved(s.ring, s.pcs[t].call)
    requires var notice := Promised(s.ring, s.pcs[t].call).notice; notice != Nobody && MayChoose(s, notice, chosen)
    ensures CanRun(s, rights, ChangeSteps(t, chosen))
    ensures var end, call := Run(s, rights, ChangeSteps(t, chosen)), s.pcs[t].call;
            var promise := Promised(s.ring, call);
            && end.ring == promise.ring && end.owner == s.owner && |end.pcs| == |s.pcs|
            && end.history == s.history + [Took(t, call, promise.result)]
            && end.pcs[t] == (if call.Timed() then Returning(call, promise.result) else Leaving(call, promise.result))
            && forall u: nat | u < |s.pcs| && u != t :: end.pcs[u] == Noticed(s.pcs[u], u, promise.notice, chosen)
  {
    var call, promise := s.pcs[t].call, Promised(s.ring, s.pcs[t].call);
    ChangeMeans(s.ring, call);
    var s1 := Apply(s, rights, Mutate(t));
    assert s1.pcs == s.pcs[t := Notifying(call, promise.result)];
    NotifiesOthers(s1, rights, t, promise.notice, chosen);
    One(s1, rights, Notify(t, chosen), []);
    One(s, rights, Mutate(t), [Notify(t, chosen)]);
    assert ChangeSteps<T>(t, chosen) == [Mutate(t)] + [Notify(t, chosen)];
  }

  lemma NotifiesOthers<T>(s: State<T>, rights: Rights, t: nat, notice: Notice, chosen: Option<nat>)
    requires s.ring.Usable() && t < |s.pcs| == |rights| && s.pcs[t].Notifying? && MayChoose(s, notice, chosen)
    requires notice == if s.pcs[t].call.ClearAll? then All(NotFull) else OneOf(s.pcs[t].call.Notifies())
    ensures Enabled(s, rights, Notify(t, chosen))
    ensures var end, call, result := Apply(s, rights, Notify(t, chosen)), s.pcs[t].call, s.pcs[t].result;
            && end.ring == s.ring && end.owner == s.owner && |end.pcs| == |s.pcs| && end.history == s.history
            && end.pcs[t] == (if call.Timed() then Returning(call, result) else Leaving(call, result))
            && forall u: nat | u < |s.pcs| && u != t :: end.pcs[u] == Noticed(s.pcs[u], u, notice, chosen)
  {
    assert s.history + [] == s.history;
  }

  // ---------------------------------------------------------------------------------------------
  // Whole calls
  // ---------------------------------------------------------------------------------------------

  /** The call answers at its guard. */
  lemma FinishesAtGuard<T>(s: State<T>, rights: Rights, t: nat) returns (steps: seq<Step<T>>)
    requires Free(s, rights) && t < |s.pcs| && s.pcs[t].Entering?
    requires Guard(s.ring, s.pcs[t].call, s.pcs[t].wake).Answered?
    ensures CanRun(s, rights, steps) && Own(steps, t)
    ensures Kept(s, t, s.pcs[t].call, Promised(s.ring, s.pcs[t].call), None, Run(s, rights, steps))
  {
    GuardMeans(s.ring, s.pcs[t].call, s.pcs[t].wake);
    Decides(s, rights, t);
    var s1 := Run(s, rights, DecideSteps(t));
    Returns(s1, rights, t);
    var promise := Promised(s.ring, s.pcs[t].call);
    assert promise == Promise(s.ring, promise.result, Nobody);
    KeptByAnswer(s, s1, t, promise.result);
    RunOn(s, rights, DecideSteps(t), LeaveSteps(t));
    steps := DecideSteps(t) + LeaveSteps(t);
  }

  lemma KeptByAnswer<T>(s: State<T>, s': State<T>, t: nat, result: Result<T>)
    requires t < |s.pcs| && !s.pcs[t].Idle? && var call := s.pcs[t].call;
             s' == Locked(s, t, Leaving(call, result)).(history := s.history + [Took(t, call, result)])
    ensures var call := s.pcs[t].call;
            Kept(s, t, call, Promise(s.ring, result, Nobody), None,
                 Placed(s', t, Idle).(owner := None, history := s'.history + [Returned(t, call, result)]))
  {
  }

  /** An unconditional removal from an empty ring throws. */
  lemma FinishesByThrowing<T>(s: State<T>, rights: Rights, t: nat) returns (steps: seq<Step<T>>)
    requires Free(s, rights) && t < |s.pcs| && s.pcs[t].Entering? && s.pcs[t].call.PopFront? && s.ring.count == 0
    ensures CanRun(s, rights, steps) && Own(steps, t)
    ensures Kept(s, t, PopFront, Promised(s.ring, PopFront), None, Run(s, rights, steps))
  {
    Decides(s, rights, t);
    var s1 := Run(s, rights, DecideSteps(t));
    var s2 := Apply(s1, rights, Mutate(t));
    assert s2.history == s1.history + [Took(t, PopFront, Throws(EmptyBuffer))];
    Returns(s2, rights, t);
    One(s1, rights, Mutate(t), LeaveSteps(t));
    RunOn(s, rights, DecideSteps(t), [Mutate(t)] + LeaveSteps(t));
    steps := DecideSteps(t) + ([Mutate(t)] + LeaveSteps(t));
  }

  /** A promise kept from a little later in the call is kept from the start. */
  lemma KeptAlike<T>(s: State<T>, s': State<T>, t: nat, pc: Pc<T>, call: Call<T>, promise: Promise<T>,
                     chosen: Option<nat>, end: State<T>)
    requires t < |s.pcs| && s'.pcs == s.pcs[t := pc] && s'.history == s.history
    requires Kept(s', t, call, promise, chosen, end)
    ensures Kept(s, t, call, promise, chosen, end)
  {
  }

  lemma ChooseAlike<T>(s: State<T>, s': State<T>, t: nat, pc: Pc<T>, notice: Notice, chosen: Option<nat>)
    requires t < |s.pcs| && s'.pcs == s.pcs[t := pc] && !s.pcs[t].Sleeping? && !pc.Sleeping?
    requires MayChoose(s, notice, chosen)
    ensures MayChoose(s', notice, chosen)
  {
  }

  lemma ChangesAndLeaves<T>(s: State<T>, rights: Rights, t: nat, chosen: Option<nat>)
    requires s.ring.Usable() && t < |s.pcs| == |rights| && s.pcs[t].Mutating? && !s.pcs[t].call.Timed()
    requires !Starved(s.ring, s.pcs[t].call)
    requires var notice := Promised(s.ring, s.pcs[t].call).notice; notice != Nobody && MayChoose(s, notice, chosen)
    ensures CanRun(s, rights, ChangeSteps(t, chosen) + LeaveSteps(t))
    ensures Kept(s, t, s.pcs[t].call, Promised(s.ring, s.pcs[t].call), chosen,
                 Run(s, rights, ChangeSteps(t, chosen) + LeaveSteps(t)))
  {
    Changes(s, rights, t, chosen);
    Returns(Run(s, rights, ChangeSteps(t, chosen)), rights, t);
    RunOn(s, rights, ChangeSteps(t, chosen), LeaveSteps(t));
  }

  function EndSteps<T>(t: nat, chosen: Option<nat>): seq<Step<T>> {
    ChangeSteps(t, chosen) + [Return(t)]
  }

  lemma ChangesAndEnds<T>(s: State<T>, rights: Rights, t: nat, chosen: Option<nat>)
    requires Free(s, rights) && t < |s.pcs| && s.pcs[t].Mutating? && s.pcs[t].call.Timed()
    requires !Starved(s.ring, s.pcs[t].call)
    requires var notice := Promised(s.ring, s.pcs[t].call).notice; notice != Nobody && MayChoose(s, notice, chosen)
    ensures CanRun(s, rights, EndSteps(t, chosen))
    ensures Kept(s, t, s.pcs[t].call, Promised(s.ring, s.pcs[t].call), chosen,
                 Run(s, rights, EndSteps(t, chosen)))
  {
    Changes(s, rights, t, chosen);
    Ends(Run(s, rights, ChangeSteps(t, chosen)), rights, t);
    RunOn(s, rights, ChangeSteps(t, chosen), [Return(t)]);
  }

  /** A call that stays under the mutex changes the buffer. */
  lemma FinishesLocked<T>(s: State<T>, rights: Rights, t: nat, chosen: Option<nat>) returns (steps: seq<Step<T>>)
    requires Free(s, rights) && t < |s.pcs| && s.pcs[t].Entering? && !s.pcs[t].call.Timed()
    requires !Starved(s.ring, s.pcs[t].call)
    requires var notice := Promised(s.ring, s.pcs[t].call).notice; notice != Nobody && MayChoose(s, notice, chosen)
    ensures CanRun(s, rights, steps) && Own(steps, t)
    ensures Kept(s, t, s.pcs[t].call, Promised(s.ring, s.pcs[t].call), chosen, Run(s, rights, steps))
  {
    GuardMeans(s.ring, s.pcs[t].call, s.pcs[t].wake);
    Decides(s, rights, t);
    var s1, change := Run(s, rights, DecideSteps(t)), ChangeSteps<T>(t, chosen) + LeaveSteps(t);
    ChooseAlike(s, s1, t, s1.pcs[t], Promised(s.ring, s.pcs[t].call).notice, chosen);
    ChangesAndLeaves(s1, rights, t, chosen);
    KeptAlike(s, s1, t, s1.pcs[t], s.pcs[t].call, Promised(s.ring, s.pcs[t].call), chosen, Run(s1, rights, change));
    RunOn(s, rights, DecideSteps(t), change);
    steps := DecideSteps(t) + change;
  }

  lemma Releases<T>(s: State<T>, rights: Rights, t: nat)
    requires s.ring.Usable() && t < |s.pcs| == |rights| && s.pcs[t].Passing?
    ensures CanRun(s, rights, [Unlock(t)])
    ensures Run(s, rights, [Unlock(t)]) == Placed(s, t, Mutating(s.pcs[t].call, s.pcs[t].wake)).(owner := None)
  {
    One(s, rights, Unlock(t), []);
    assert s.history + [] == s.history;
  }

  lemma Ends<T>(s: State<T>, rights: Rights, t: nat)
    requires s.ring.Usable() && t < |s.pcs| == |rights| && s.pcs[t].Returning?
    ensures CanRun(s, rights, [Return(t)])
    ensures Run(s, rights, [Return(t)]) ==
            Placed(s, t, Idle).(history := s.history + [Returned(t, s.pcs[t].call, s.pcs[t].result)])
  {
    One(s, rights, Return(t), []);
  }

  function PassSteps<T>(t: nat): seq<Step<T>> {
    DecideSteps(t) + [Unlock(t)]
  }

  lemma PassesAndReleases<T>(s: State<T>, rights: Rights, t: nat)
    requires Free(s, rights) && t < |s.pcs| && s.pcs[t].Entering? && s.pcs[t].call.Timed()
    requires Guard(s.ring, s.pcs[t].call, s.pcs[t].wake).Proceed?
    ensures CanRun(s, rights, PassSteps(t))
    ensures Run(s, rights, PassSteps(t)) == Placed(s, t, Mutating(s.pcs[t].call, s.pcs[t].wake))
  {
    Decides(s, rights, t);
    Releases(Run(s, rights, DecideSteps(t)), rights, t);
    RunOn(s, rights, DecideSteps(t), [Unlock(t)]);
    assert s.pcs[t := Passing(s.pcs[t].call, s.pcs[t].wake)][t := Mutating(s.pcs[t].call, s.pcs[t].wake)]
        == s.pcs[t := Mutating(s.pcs[t].call, s.pcs[t].wake)];
  }

  /** A timed call changes the buffer after releasing the mutex. */
  lemma FinishesUnlocked<T>(s: State<T>, rights: Rights, t: nat, chosen: Option<nat>) returns (steps: seq<Step<T>>)
    requires Free(s, rights) && t < |s.pcs| && s.pcs[t].Entering? && s.pcs[t].call.Timed()
    requires !Starved(s.ring, s.pcs[t].call)
    requires var notice := Promised(s.ring, s.pcs[t].call).notice; notice != Nobody && MayChoose(s, notice, chosen)
    ensures CanRun(s, rights, steps) && Own(steps, t)
    ensures Kept(s, t, s.pcs[t].call, Promised(s.ring, s.pcs[t].call), chosen, Run(s, rights, steps))
  {
    GuardMeans(s.ring, s.pcs[t].call, s.pcs[t].wake);
    PassesAndReleases(s, rights, t);
    EndsFromPassed(s, rights, t, chosen);
    RunOn(s, rights, PassSteps(t), EndSteps(t, chosen));
    steps := PassSteps(t) + EndSteps(t, chosen);
  }

  lemma EndsFromPassed<T>(s: State<T>, rights: Rights, t: nat, chosen: Option<nat>)
    requires Free(s, rights) && t < |s.pcs| && s.pcs[t].Entering? && s.pcs[t].call.Timed()
    requires !Starved(s.ring, s.pcs[t].call)
    requires var notice := Promised(s.ring, s.pcs[t].call).notice; notice != Nobody && MayChoose(s, notice, chosen)
    ensures var passed := Placed(s, t, Mutating(s.pcs[t].call, s.pcs[t].wake));
            && CanRun(passed, rights, EndSteps(t, chosen))
            && Kept(s, t, s.pcs[t].call, Promised(s.ring, s.pcs[t].call), chosen,
                    Run(passed, rights, EndSteps(t, chosen)))
  {
    var pc, promise := Mutating(s.pcs[t].call, s.pcs[t].wake), Promised(s.ring, s.pcs[t].call);
    var passed := Placed(s, t, pc);
    ChooseAlike(s, passed, t, pc, promise.notice, chosen);
    ChangesAndEnds(passed, rights, t, chosen);
    KeptAlike(s, passed, t, pc, s.pcs[t].call, promise, chosen, Run(passed, rights, EndSteps(t, chosen)));
  }

  /** A thread that wants the mutex, finds it free and is ready finishes its call by its own steps, and
      keeps the promise, whichever sleeper its notification may choose. */
  lemma Finishes<T>(s: State<T>, rights: Rights, t: nat, chosen: Option<nat>) returns (steps: seq<Step<T>>)
    requires Free(s, rights) && t < |s.pcs| && s.pcs[t].Entering?
    requires Ready(s.ring, s.pcs[t].call, s.pcs[t].wake)
    requires MayChoose(s, Promised(s.ring, s.pcs[t].call).notice, chosen)
    ensures CanRun(s, rights, steps) && Own(steps, t)
    ensures Kept(s, t, s.pcs[t].call, Promised(s.ring, s.pcs[t].call), chosen, Run(s, rights, steps))
  {
    var call := s.pcs[t].call;
    GuardMeans(s.ring, call, s.pcs[t].wake);
    if Promised(s.ring, call).notice == Nobody {
      if call.PopFront? {
        steps := FinishesByThrowing(s, rights, t);
      } else {
        steps := FinishesAtGuard(s, rights, t);
      }
    } else if call.Timed() {
      steps := FinishesUnlocked(s, rights, t, chosen);
    } else {
      steps := FinishesLocked(s, rights, t, chosen);
    }
  }

  /** A thread that is not ready goes to sleep, and nothing else has happened. */
  lemma SleepsUnlessReady<T>(s: State<T>, rights: Rights, t: nat) returns (steps: seq<Step<T>>)
    requires Free(s, rights) && t < |s.pcs| && s.pcs[t].Entering?
    requires !Ready(s.ring, s.pcs[t].call, s.pcs[t].wake)
    ensures CanRun(s, rights, steps) && Own(steps, t)
    ensures Run(s, rights, steps) == Placed(s, t, Sleeping(s.pcs[t].call))
  {
    GuardMeans(s.ring, s.pcs[t].call, s.pcs[t].wake);
    Decides(s, rights, t);
    var s1 := Run(s, rights, DecideSteps(t));
    One(s1, rights, Sleep(t), []);
    assert s1.pcs[t := Sleeping(s.pcs[t].call)] == s.pcs[t := Sleeping(s.pcs[t].call)];
    assert s1.history + [] == s.history;
    RunOn(s, rights, DecideSteps(t), [Sleep(t)]);
    steps := DecideSteps(t) + [Sleep(t)];
  }

  /** Every step of a thread but a wake-up and a new call is forced, up to whom a notification chooses: so
      what a thread can do by its own steps it can do in one way only. */
  lemma OwnStepForced<T>(s: State<T>, rights: Rights, a: Step<T>, b: Step<T>)
    requires Orderly(s, rights) && Enabled(s, rights, a) && Enabled(s, rights, b)
    requires a.t == b.t && Internal(a) && Internal(b)
    ensures a == b || (a.Notify? && b.Notify?)
  {
  }

  lemma SomeChoice<T>(s: State<T>, notice: Notice) returns (chosen: Option<nat>)
    ensures MayChoose(s, notice, chosen)
  {
    chosen := None;
    if notice.OneOf? {
      if u: nat :| u < |s.pcs| && s.pcs[u].SleepsOn(notice.cv) {
        chosen := Some(u);
      }
    }
  }

  function CalledOut<T>(s: State<T>, t: nat, call: Call<T>): State<T> {
    s.(history := s.history + [Called(t, call)])
  }

  /** Every call at every state with a free mutex, drifted or not: if what it waits for is there, its
      thread, left to itself, goes from the call to the return and keeps the promise. */
  lemma CallKeepsPromise<T>(s: State<T>, rights: Rights, t: nat, call: Call<T>, chosen: Option<nat>)
    returns (steps: seq<Step<T>>)
    requires Free(s, rights) && t < |s.pcs| && s.pcs[t].Idle? && call.Kind() in rights[t]
    requires !Starved(s.ring, call) && MayChoose(s, Promised(s.ring, call).notice, chosen)
    ensures CanRun(s, rights, steps) && Own(steps, t)
    ensures Kept(CalledOut(s, t, call), t, call, Promised(s.ring, call), chosen, Run(s, rights, steps))
  {
    var s1 := Apply(s, rights, Begin(t, call));
    ChooseAlike(s, s1, t, Entering(call, Initial), Promised(s.ring, call).notice, chosen);
    var rest := Finishes(s1, rights, t, chosen);
    One(s, rights, Begin(t, call), rest);
    KeptAlike(CalledOut(s, t, call), s1, t, Entering(call, Initial), call, Promised(s.ring, call), chosen,
              Run(s1, rights, rest));
    steps := [Begin(t, call)] + rest;
  }

  /** And if it is missing, it goes to sleep. */
  lemma CallSleeps<T>(s: State<T>, rights: Rights, t: nat, call: Call<T>) returns (steps: seq<Step<T>>)
    requires Free(s, rights) && t < |s.pcs| && s.pcs[t].Idle? && call.Kind() in rights[t] && Starved(s.ring, call)
    ensures CanRun(s, rights, steps) && Own(steps, t)
    ensures Run(s, rights, steps) == Placed(CalledOut(s, t, call), t, Sleeping(call))
  {
    var s1 := Apply(s, rights, Begin(t, call));
    var rest := SleepsUnlessReady(s1, rights, t);
    One(s, rights, Begin(t, call), rest);
    assert s.pcs[t := Entering(call, Initial)][t := Sleeping(call)] == s.pcs[t := Sleeping(call)];
    steps := [Begin(t, call)] + rest;
  }

  // ---------------------------------------------------------------------------------------------
  // Time-outs
  // ---------------------------------------------------------------------------------------------

  /** What a call that gives up returns. */
  function Failure<T>(call: Call<T>): Result<T> {
    if call.PopFrontTimed? then Nothing else Truth(false)
  }

  lemma LatePromise<T>(ring: Ring<T>, call: Call<T>)
    requires ring.Usable() && call.Kind() in TIMED
    ensures Starved(ring, call) ==> Promised(ring, call) == Promise(ring, Failure(call), Nobody)
    ensures !Starved(ring, call) ==> Promised(ring, call).result != Failure(call)
  {
  }

  lemma ChooseAfterTimeOut<T>(s: State<T>, t: nat, call: Call<T>, chosen: Option<nat>)
    requires s.ring.Usable() && t < |s.pcs| && s.pcs[t] == Sleeping(call) && call.Kind() in TIMED
    requires MayChoose(s, Promised(s.ring, call).notice, chosen)
    ensures MayChoose(Placed(s, t, Entering(call, TimedOut)), Promised(s.ring, call).notice, chosen)
  {
  }

  /** A sleeper whose time is over, and who finds the mutex free, returns by its own steps: with what it
      waited for, if that is there after all, and else with its failure, having changed nothing and woken
      nobody. */
  lemma TimeOutEnds<T>(s: State<T>, rights: Rights, t: nat, call: Call<T>, chosen: Option<nat>)
    returns (steps: seq<Step<T>>)
    requires Free(s, rights) && t < |s.pcs| && s.pcs[t] == Sleeping(call) && call.Kind() in TIMED
    requires MayChoose(s, Promised(s.ring, call).notice, chosen)
    ensures CanRun(s, rights, steps) && Own(steps, t) && steps != [] && steps[0] == Expire(t)
    ensures Kept(s, t, call, Promised(s.ring, call), chosen, Run(s, rights, steps))
    ensures Promised(s.ring, call).result == Failure(call) <==> Starved(s.ring, call)
    ensures Starved(s.ring, call) ==> Promised(s.ring, call) == Promise(s.ring, Failure(call), Nobody)
  {
    var pc := Entering(call, TimedOut);
    var s1 := Apply(s, rights, Expire(t));
    LatePromise(s.ring, call);
    ChooseAfterTimeOut(s, t, call, chosen);
    assert s.history + [] == s.history;
    assert s1 == Placed(s, t, pc);
    var rest := Finishes(s1, rights, t, chosen);
    One(s, rights, Expire(t), rest);
    KeptAlike(s, s1, t, pc, call, Promised(s.ring, call), chosen, Run(s1, rights, rest));
    steps := [Expire(t)] + rest;
  }

  /** A thread that is woken for nothing, by a notification or spuriously, sleeps on. */
  lemma WokenForNothingSleepsOn<T>(s: State<T>, rights: Rights, t: nat, call: Call<T>) returns (steps: seq<Step<T>>)
    requires Free(s, rights) && t < |s.pcs| && s.pcs[t] == Sleeping(call) && Starved(s.ring, call)
    ensures CanRun(s, rights, steps) && Own(steps, t) && steps != [] && steps[0] == Stir(t)
    ensures Run(s, rights, steps) == s
  {
    var s1 := Apply(s, rights, Stir(t));
    assert s.history + [] == s.history;
    var rest := SleepsUnlessReady(s1, rights, t);
    One(s, rights, Stir(t), rest);
    assert s.pcs[t := Entering(call, Spurious)][t := Sleeping(call)] == s.pcs;
    steps := [Stir(t)] + rest;
  }

  /** Thread `t` has not failed and is not about to. */
  ghost predicate Unfailed<T>(s: State<T>, t: nat) {
    && t < |s.pcs|
    && (s.pcs[t].Awake() ==> s.pcs[t].wake != TimedOut)
    && (s.pcs[t].Notifying? || s.pcs[t].Leaving? || s.pcs[t].Returning? ==> !Failed(s.pcs[t].call, s.pcs[t].result))
    && forall e | e in s.history && e.Returned? && e.thread == t :: !Failed(e.call, e.result)
  }

  predicate Failed<T(==)>(call: Call<T>, result: Result<T>) {
    call.Kind() in TIMED && result == Failure(call)
  }

  lemma UnfailedNext<T>(s: State<T>, rights: Rights, t: nat, step: Step<T>)
    requires Orderly(s, rights) && Unfailed(s, t) && Enabled(s, rights, step) && step != Expire(t)
    ensures Unfailed(Apply(s, rights, step), t)
  {
    assert ThreadOk(s, rights, t);
    if step.t == t {
      UnfailedOwn(s, rights, t, step);
    } else {
      OthersStay(s, rights, step, t);
    }
    var s' := Apply(s, rights, step);
    forall e | e in s'.history && e.Returned? && e.thread == t ensures !Failed(e.call, e.result) {
      if e !in s.history {
        assert e in Emitted(s, rights, step);
      }
    }
  }

  lemma UnfailedOwn<T>(s: State<T>, rights: Rights, t: nat, step: Step<T>)
    requires Orderly(s, rights) && Unfailed(s, t) && Enabled(s, rights, step) && step.t == t && !step.Expire?
    ensures var pc := Apply(s, rights, step).pcs[t];
            && (pc.Awake() ==> pc.wake != TimedOut)
            && (pc.Notifying? || pc.Leaving? || pc.Returning? ==> !Failed(pc.call, pc.result))
  {
    if step.Test? {
      UnfailedTest(s, rights, t);
    } else if step.Mutate? {
      UnfailedMutate(s, rights, t);
    }
  }

  lemma UnfailedTest<T>(s: State<T>, rights: Rights, t: nat)
    requires s.ring.Usable() && Unfailed(s, t) && Enabled(s, rights, Test(t))
    ensures var pc := Apply(s, rights, Test(t)).pcs[t];
            && (pc.Awake() ==> pc.wake != TimedOut)
            && !pc.Notifying? && !pc.Returning? && (pc.Leaving? ==> !Failed(pc.call, pc.result))
  {
    GuardMeans(s.ring, s.pcs[t].call, s.pcs[t].wake);
  }

  lemma UnfailedMutate<T>(s: State<T>, rights: Rights, t: nat)
    requires s.ring.Usable() && t < |s.pcs| && Enabled(s, rights, Mutate(t))
    ensures var pc := Apply(s, rights, Mutate(t)).pcs[t];
            (pc.Notifying? || pc.Leaving? || pc.Returning?) && !Failed(pc.call, pc.result)
  {
  }

  lemma {:induction false} UnfailedRun<T>(s: State<T>, rights: Rights, t: nat, steps: seq<Step<T>>)
    requires Orderly(s, rights) && Unfailed(s, t) && CanRun(s, rights, steps)
    requires forall i | 0 <= i < |steps| :: steps[i] != Expire(t)
    ensures Unfailed(Run(s, rights, steps), t)
    decreases |steps|
  {
    if steps != [] {
      OrderlyNext(s, rights, steps[0]);
      UnfailedNext(s, rights, t, steps[0]);
      assert forall i | 0 <= i < |steps[1..]| :: steps[1..][i] == steps[i + 1];
      UnfailedRun(Apply(s, rights, steps[0]), rights, t, steps[1..]);
    }
  }

  /** Only a time-out makes a timed call fail: in no run does a thread whose time is never over return a
      failure, whoever else runs, and however often it is woken spuriously. */
  lemma FailsOnlyAfterTimeOut<T>(capacity: nat, rights: Rights, t: nat, steps: seq<Step<T>>, e: Event<T>)
    requires IsRun(capacity, rights, steps) && t < |rights|
    requires forall i | 0 <= i < |steps| :: steps[i] != Expire(t)
    requires e in EndOf(capacity, rights, steps).history && e.Returned? && e.thread == t && e.call.Kind() in TIMED
    ensures e.result != Failure(e.call)
  {
    UnfailedRun(Start(capacity, rights), rights, t, steps);
  }

  // ---------------------------------------------------------------------------------------------
  // Clearing wakes everybody
  // ---------------------------------------------------------------------------------------------

  /** A clear, of a full, partly filled or empty buffer, leaves it empty and nobody asleep for room; those
      asleep for elements sleep on. */
  lemma ClearWakesAll<T>(s: State<T>, rights: Rights, t: nat) returns (steps: seq<Step<T>>)
    requires Free(s, rights) && t < |s.pcs| && s.pcs[t].Idle? && KClearAll in rights[t]
    ensures CanRun(s, rights, steps) && Own(steps, t)
    ensures var end := Run(s, rights, steps);
            && end.ring.count == 0 && end.owner == None && end.pcs[t].Idle?
            && end.history == CalledOut(s, t, ClearAll).history
                              + [Took(t, ClearAll, Done)] + [Returned(t, ClearAll, Done)]
            && forall u: nat | u < |s.pcs| && u != t ::
                 end.pcs[u] == if s.pcs[u].SleepsOn(NotFull) then Entering(s.pcs[u].call, Signalled) else s.pcs[u]
  {
    steps := CallKeepsPromise(s, rights, t, ClearAll, None);
  }

  /** So it ends every stranding: the inserter that no removal would wake goes on and returns. */
  lemma ClearEndsStranding<T>(s: State<T>, rights: Rights, p: nat, call: Call<T>, t: nat) returns (steps: seq<Step<T>>)
    requires Free(s, rights) && Stranded(s, p, call) && call.Kind() in {KPushBack, KEmplaceBack}
    requires t < |s.pcs| && t != p && s.pcs[t].Idle? && KClearAll in rights[t]
    ensures CanRun(s, rights, steps)
    ensures var end := Run(s, rights, steps);
            && end.pcs[p].Idle? && end.ring.count == 1
            && end.history == CalledOut(s, t, ClearAll).history
                              + [Took(t, ClearAll, Done)] + [Returned(t, ClearAll, Done)]
                              + [Took(p, call, Done)] + [Returned(p, call, Done)]
  {
    var clear := ClearWakesAll(s, rights, t);
    var s1 := Run(s, rights, clear);
    var insert := InsertsInto(s1, rights, p);
    RunOn(s, rights, clear, insert);
    steps := clear + insert;
  }

  lemma InsertsInto<T>(s: State<T>, rights: Rights, p: nat) returns (steps: seq<Step<T>>)
    requires Free(s, rights) && s.ring.count == 0 && p < |s.pcs| && s.pcs[p].Entering?
    requires s.pcs[p].call.PushBack? || s.pcs[p].call.EmplaceBack?
    ensures CanRun(s, rights, steps)
    ensures var end, call := Run(s, rights, steps), s.pcs[p].call;
            && end.pcs[p].Idle? && end.ring.count == 1
            && end.history == s.history + [Took(p, call, Done)] + [Returned(p, call, Done)]
  {
    var chosen := SomeChoice(s, Promised(s.ring, s.pcs[p].call).notice);
    assert !Starved(s.ring, s.pcs[p].call);
    steps := Finishes(s, rights, p, chosen);
  }
}
