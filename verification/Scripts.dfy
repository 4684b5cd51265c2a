/** Standard stretches of a run: what a thread does when nobody interferes. */
module Scripts {
  import opened Indices
  import opened Monitor

  /** Nobody owns the mutex. */
  predicate Free<T>(s: State<T>, rights: Rights) {
    s.ring.Usable() && s.owner == None && |s.pcs| == |rights|
  }

  /** Nobody owns the mutex and nobody sleeps. */
  ghost predicate Quiet<T>(s: State<T>, rights: Rights) {
    Free(s, rights) && forall u: nat | u < |s.pcs| :: !s.pcs[u].Sleeping?
  }

  lemma StartQuiet<T>(capacity: nat, rights: Rights)
    requires 0 < capacity <= MAX_CAPACITY
    ensures Quiet(Start<T>(capacity, rights), rights)
  {
  }

  /** A timed call up to the release of the mutex. */
  function CommitSteps<T>(t: nat, call: Call<T>): seq<Step<T>> {
    [Begin(t, call), Lock(t), Test(t), Unlock(t)]
  }

  /** From there on, when nobody sleeps. */
  function FinishSteps<T>(t: nat): seq<Step<T>> {
    [Mutate(t), Notify(t, None), Return(t)]
  }

  /** A call that changes the buffer, alone from begin to end, when nobody sleeps. */
  function CallSteps<T>(t: nat, call: Call<T>): seq<Step<T>> {
    if call.Timed() then [Begin(t, call), Lock(t), Test(t), Unlock(t), Mutate(t), Notify(t, None), Return(t)]
    else [Begin(t, call), Lock(t), Test(t), Mutate(t), Notify(t, None), Unlock(t), Return(t)]
  }

  lemma One<T>(s: State<T>, rights: Rights, step: Step<T>, rest: seq<Step<T>>)
    requires s.ring.Usable() && Enabled(s, rights, step) && CanRun(Apply(s, rights, step), rights, rest)
    ensures CanRun(s, rights, [step] + rest)
    ensures Run(s, rights, [step] + rest) == Run(Apply(s, rights, step), rights, rest)
  {
  }

  function Committed<T>(s: State<T>, t: nat, call: Call<T>): State<T>
    requires t < |s.pcs|
  {
    Placed(s, t, Mutating(call, Initial)).(history := s.history + [Called(t, call)])
  }

  lemma CommitRuns<T>(s: State<T>, rights: Rights, t: nat, call: Call<T>)
    requires Free(s, rights) && t < |s.pcs| && s.pcs[t].Idle?
    requires call.Kind() in rights[t] && call.Timed() && Guard(s.ring, call, Initial).Proceed?
    ensures CanRun(s, rights, CommitSteps(t, call))
    ensures Run(s, rights, CommitSteps(t, call)) == Committed(s, t, call)
    ensures Free(Committed(s, t, call), rights) && (Quiet(s, rights) ==> Quiet(Committed(s, t, call), rights))
  {
    var s1 := Apply(s, rights, Begin(t, call));
    var s2 := Apply(s1, rights, Lock(t));
    var s3 := Apply(s2, rights, Test(t));
    var s4 := Apply(s3, rights, Unlock(t));
    assert s4.pcs == Committed(s, t, call).pcs;
    assert s4.history == s.history + [Called(t, call)];
    assert s4 == Committed(s, t, call);
    One(s3, rights, Unlock(t), []);
    One(s2, rights, Test(t), [Unlock(t)]);
    One(s1, rights, Lock(t), [Test(t), Unlock(t)]);
    One(s, rights, Begin(t, call), [Lock(t), Test(t), Unlock(t)]);
    assert CommitSteps(t, call) == [Begin(t, call)] + [Lock(t), Test(t), Unlock(t)];
  }

  /** The state after a whole call that changed the buffer. */
  function Served<T>(s: State<T>, t: nat, call: Call<T>): State<T>
    requires s.ring.Usable() && (call.Adds() || call.Removes())
  {
    var result := call.Outcome(s.ring);
    s.(ring := s.ring.Next(call.Operation()),
       history := s.history + [Called(t, call)] + [Took(t, call, result)] + [Returned(t, call, result)])
  }

  /** The part of a call between its guard and its end. */
  lemma FinishRuns<T>(s: State<T>, rights: Rights, t: nat, call: Call<T>)
    requires s.ring.Usable() && t < |s.pcs| == |rights| && s.pcs[t] == Mutating(call, Initial)
    requires forall u: nat | u < |s.pcs| :: !s.pcs[u].Sleeping?
    requires call.Timed() && !call.Outcome(s.ring).Throws?
    ensures CanRun(s, rights, FinishSteps(t))
    ensures Run(s, rights, FinishSteps(t)) ==
            Placed(s, t, Idle).(ring := s.ring.Next(call.Operation()),
                                history := s.history + [Took(t, call, call.Outcome(s.ring))]
                                           + [Returned(t, call, call.Outcome(s.ring))])
  {
    var s1 := Apply(s, rights, Mutate(t));
    var s2 := Apply(s1, rights, Notify(t, None));
    var s3 := Apply(s2, rights, Return(t));
    assert s3.pcs == s.pcs[t := Idle];
    One(s2, rights, Return(t), []);
    One(s1, rights, Notify(t, None), [Return(t)]);
    One(s, rights, Mutate(t), [Notify(t, None), Return(t)]);
    assert FinishSteps<T>(t) == [Mutate(t)] + [Notify(t, None), Return(t)];
    assert s1.history + [] == s1.history;
  }

  lemma TimedCallRuns<T>(s: State<T>, rights: Rights, t: nat, call: Call<T>)
    requires Quiet(s, rights) && t < |s.pcs| && s.pcs[t].Idle?
    requires call.Kind() in rights[t] && call.Timed()
    requires Guard(s.ring, call, Initial).Proceed? && !call.Outcome(s.ring).Throws?
    ensures CanRun(s, rights, CallSteps(t, call)) && Run(s, rights, CallSteps(t, call)) == Served(s, t, call)
  {
    CommitRuns(s, rights, t, call);
    var c := Committed(s, t, call);
    FinishRuns(c, rights, t, call);
    RunOn(s, rights, CommitSteps(t, call), FinishSteps(t));
    assert CallSteps(t, call) == CommitSteps(t, call) + FinishSteps(t);
    assert s.pcs[t := Mutating(call, Initial)][t := Idle] == s.pcs;
  }

  function LockedFirst<T>(t: nat, call: Call<T>): seq<Step<T>> {
    [Begin(t, call), Lock(t), Test(t), Mutate(t)]
  }

  function LockedRest<T>(t: nat): seq<Step<T>> {
    [Notify(t, None), Unlock(t), Return(t)]
  }

  lemma LockedFirstRuns<T>(s: State<T>, rights: Rights, t: nat, call: Call<T>)
    requires Free(s, rights) && t < |s.pcs| && s.pcs[t].Idle?
    requires call.Kind() in rights[t] && !call.Timed() && (call.Adds() || call.Removes())
    requires Guard(s.ring, call, Initial).Proceed? && !call.Outcome(s.ring).Throws?
    ensures CanRun(s, rights, LockedFirst(t, call))
    ensures Run(s, rights, LockedFirst(t, call)) ==
            State(s.ring.Next(call.Operation()), Some(t),
                  s.pcs[t := Notifying(call, call.Outcome(s.ring))],
                  s.history + [Called(t, call)] + [Took(t, call, call.Outcome(s.ring))])
  {
    var s1 := Apply(s, rights, Begin(t, call));
    var s2 := Apply(s1, rights, Lock(t));
    var s3 := Apply(s2, rights, Test(t));
    var s4 := Apply(s3, rights, Mutate(t));
    assert s1.history + [] == s1.history;
    assert s4.pcs == s.pcs[t := Notifying(call, call.Outcome(s.ring))];
    One(s3, rights, Mutate(t), []);
    One(s2, rights, Test(t), [Mutate(t)]);
    One(s1, rights, Lock(t), [Test(t), Mutate(t)]);
    One(s, rights, Begin(t, call), [Lock(t), Test(t), Mutate(t)]);
    assert LockedFirst(t, call) == [Begin(t, call)] + [Lock(t), Test(t), Mutate(t)];
  }

  lemma LockedRestRuns<T>(s: State<T>, rights: Rights, t: nat)
    requires s.ring.Usable() && |s.pcs| == |rights| && t < |s.pcs| && s.pcs[t].Notifying? && !s.pcs[t].call.Timed()
    requires forall u: nat | u < |s.pcs| :: !s.pcs[u].Sleeping?
    ensures CanRun(s, rights, LockedRest(t))
    ensures Run(s, rights, LockedRest(t)) ==
            State(s.ring, None, s.pcs[t := Idle],
                  s.history + [Returned(t, s.pcs[t].call, s.pcs[t].result)])
  {
    var s1 := Apply(s, rights, Notify(t, None));
    var s2 := Apply(s1, rights, Unlock(t));
    var s3 := Apply(s2, rights, Return(t));
    assert Awakened(s.pcs, NotFull) == s.pcs;
    assert s1.history == s.history && s2.history == s.history;
    assert s3.pcs == s.pcs[t := Idle];
    One(s2, rights, Return(t), []);
    One(s1, rights, Unlock(t), [Return(t)]);
    One(s, rights, Notify(t, None), [Unlock(t), Return(t)]);
    assert LockedRest<T>(t) == [Notify(t, None)] + [Unlock(t), Return(t)];
  }

  lemma CallRuns<T>(s: State<T>, rights: Rights, t: nat, call: Call<T>)
    requires Quiet(s, rights) && t < |s.pcs| && s.pcs[t].Idle?
    requires call.Kind() in rights[t] && (call.Adds() || call.Removes())
    requires Guard(s.ring, call, Initial).Proceed? && !call.Outcome(s.ring).Throws?
    ensures CanRun(s, rights, CallSteps(t, call)) && Run(s, rights, CallSteps(t, call)) == Served(s, t, call)
  {
    if call.Timed() {
      TimedCallRuns(s, rights, t, call);
    } else {
      LockedFirstRuns(s, rights, t, call);
      LockedRestRuns(Run(s, rights, LockedFirst(t, call)), rights, t);
      RunOn(s, rights, LockedFirst(t, call), LockedRest(t));
      assert CallSteps(t, call) == LockedFirst(t, call) + LockedRest(t);
      assert s.pcs[t := Notifying(call, call.Outcome(s.ring))][t := Idle] == s.pcs;
    }
  }

  // Waiting

  function HesitateSteps<T>(t: nat, call: Call<T>): seq<Step<T>> {
    [Begin(t, call), Lock(t), Test(t)]
  }

  /** A call whose guard fails, up to the moment before it sleeps. */
  lemma HesitateRuns<T>(s: State<T>, rights: Rights, t: nat, call: Call<T>)
    requires Free(s, rights) && t < |s.pcs| && s.pcs[t].Idle?
    requires call.Kind() in rights[t] && Guard(s.ring, call, Initial).Wait?
    ensures CanRun(s, rights, HesitateSteps(t, call))
    ensures Run(s, rights, HesitateSteps(t, call)) ==
            Placed(s, t, Parking(call)).(owner := Some(t), history := s.history + [Called(t, call)])
  {
    var s1 := Apply(s, rights, Begin(t, call));
    var s2 := Apply(s1, rights, Lock(t));
    var s3 := Apply(s2, rights, Test(t));
    assert s1.history + [] == s1.history;
    assert s3.pcs == s.pcs[t := Parking(call)];
    One(s2, rights, Test(t), []);
    One(s1, rights, Lock(t), [Test(t)]);
    One(s, rights, Begin(t, call), [Lock(t), Test(t)]);
    assert HesitateSteps(t, call) == [Begin(t, call)] + [Lock(t), Test(t)];
  }

  function ParkSteps<T>(t: nat, call: Call<T>): seq<Step<T>> {
    HesitateSteps(t, call) + [Sleep(t)]
  }

  /** A call whose guard fails goes to sleep. */
  lemma ParkRuns<T>(s: State<T>, rights: Rights, t: nat, call: Call<T>)
    requires Free(s, rights) && t < |s.pcs| && s.pcs[t].Idle?
    requires call.Kind() in rights[t] && Guard(s.ring, call, Initial).Wait?
    ensures CanRun(s, rights, ParkSteps(t, call))
    ensures Run(s, rights, ParkSteps(t, call)) ==
            Placed(s, t, Sleeping(call)).(history := s.history + [Called(t, call)])
  {
    HesitateRuns(s, rights, t, call);
    var s3 := Run(s, rights, HesitateSteps(t, call));
    One(s3, rights, Sleep(t), []);
    RunOn(s, rights, HesitateSteps(t, call), [Sleep(t)]);
    assert s3.pcs[t := Sleeping(call)] == s.pcs[t := Sleeping(call)];
    assert s3.history + [] == s3.history;
  }
}
