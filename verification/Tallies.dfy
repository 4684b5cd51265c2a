/** Totals over all threads. */
module Tallies {
  import opened Monitor

  /** Per thread: asleep on `cv`; woken by a notification of `cv`, not yet done with the buffer and
      bound to use something up, so not a watcher; between changing the buffer and notifying one thread
      of `cv`; in a call that has not taken effect; between clearing and notifying everybody; and the
      steps left until it rests. */
  datatype Gauge =
    | Asleep(cv: ConditionVariable)
    | Summoned(cv: ConditionVariable)
    | Owing(cv: ConditionVariable)
    | Undecided
    | ClearNotices
    | Effort

  function OneIf(b: bool): nat {
    if b then 1 else 0
  }

  function Reading<T>(g: Gauge, pc: Pc<T>): nat {
    match g
    case Asleep(cv) => OneIf(pc.SleepsOn(cv))
    case Summoned(cv) => OneIf(pc.Awake() && pc.wake == Signalled && pc.call.WaitsOn() == cv && !pc.call.Watches())
    case Owing(cv) => OneIf(pc.Notifying? && !pc.call.ClearAll? && pc.call.Notifies() == cv)
    case Undecided => OneIf(pc.Awake() || pc.Parking? || pc.Sleeping?)
    case ClearNotices => OneIf(pc.Notifying? && pc.call.ClearAll?)
    case Effort => Steps(pc)
  }

  /** More than the steps left, so that waking another thread is paid for. */
  function Steps<T>(pc: Pc<T>): nat {
    match pc
    case Idle => 0
    case Sleeping(_) => 0
    case Parking(_) => 1
    case Mutating(_, _) => 1
    case Passing(_, _) => 2
    case Checking(_, _) => 3
    case Entering(_, _) => 4
    case Returning(_, _) => 1
    case Leaving(_, _) => 2
    case Notifying(_, _) => 7
  }

  function Total<T>(pcs: seq<Pc<T>>, g: Gauge): nat {
    if pcs == [] then 0 else Reading(g, pcs[0]) + Total(pcs[1..], g)
  }

  lemma {:induction false} TotalUpdate<T>(pcs: seq<Pc<T>>, g: Gauge, t: nat, pc: Pc<T>)
    requires t < |pcs|
    ensures Total(pcs[t := pc], g) == Total(pcs, g) - Reading(g, pcs[t]) + Reading(g, pc)
    decreases |pcs|
  {
    if t == 0 {
      assert pcs[t := pc][1..] == pcs[1..];
    } else {
      assert pcs[t := pc][1..] == pcs[1..][t - 1 := pc];
      TotalUpdate(pcs[1..], g, t - 1, pc);
    }
  }

  /** A total is zero exactly when every reading is. */
  lemma {:induction false} TotalZeroIff<T>(pcs: seq<Pc<T>>, g: Gauge)
    ensures Total(pcs, g) == 0 <==> forall t: nat | t < |pcs| :: Reading(g, pcs[t]) == 0
    decreases |pcs|
  {
    if pcs != [] {
      TotalZeroIff(pcs[1..], g);
      if Total(pcs, g) == 0 {
        assert forall t: nat | 0 < t < |pcs| :: pcs[t] == pcs[1..][t - 1];
      } else if Reading(g, pcs[0]) == 0 {
        var t: nat :| t < |pcs[1..]| && Reading(g, pcs[1..][t]) != 0;
        assert pcs[t + 1] == pcs[1..][t];
      }
    }
  }

  /** Sequences with equal readings have equal totals. */
  lemma {:induction false} TotalSame<T>(a: seq<Pc<T>>, b: seq<Pc<T>>, g: Gauge)
    requires |a| == |b| && forall t: nat | t < |a| :: Reading(g, a[t]) == Reading(g, b[t])
    ensures Total(a, g) == Total(b, g)
    decreases |a|
  {
    if a != [] {
      assert forall t: nat | t < |a[1..]| :: a[1..][t] == a[t + 1] && b[1..][t] == b[t + 1];
      TotalSame(a[1..], b[1..], g);
    }
  }

  /** Every step but a notification changes the totals by what it changes of its own thread. */
  lemma OwnReading<T>(s: State<T>, rights: Rights, step: Step<T>)
    requires s.ring.Usable() && Enabled(s, rights, step) && !step.Notify?
    ensures var s' := Apply(s, rights, step);
            forall g :: Total(s'.pcs, g) == Total(s.pcs, g) - Reading(g, s.pcs[step.t]) + Reading(g, s'.pcs[step.t])
  {
    var s' := Apply(s, rights, step);
    assert s'.pcs == s.pcs[step.t := s'.pcs[step.t]];
    forall g ensures Total(s'.pcs, g) == Total(s.pcs, g) - Reading(g, s.pcs[step.t]) + Reading(g, s'.pcs[step.t]) {
      TotalUpdate(s.pcs, g, step.t, s'.pcs[step.t]);
    }
  }

  /** A notification of one thread changes the readings of the notifier and of the chosen sleeper. */
  lemma NotifyReading<T>(s: State<T>, rights: Rights, t: nat, chosen: Option<nat>)
    requires s.ring.Usable() && Enabled(s, rights, Notify(t, chosen)) && !s.pcs[t].call.ClearAll?
    ensures var s' := Apply(s, rights, Notify(t, chosen));
            forall g :: Total(s'.pcs, g) == Total(s.pcs, g) - Reading(g, s.pcs[t]) + Reading(g, s'.pcs[t])
              + (if chosen.Some? then Reading(g, Entering(s.pcs[chosen.value].call, Signalled))
                                      - Reading(g, s.pcs[chosen.value]) else 0)
  {
    var s' := Apply(s, rights, Notify(t, chosen));
    forall g ensures Total(s'.pcs, g) == Total(s.pcs, g) - Reading(g, s.pcs[t]) + Reading(g, s'.pcs[t])
              + (if chosen.Some? then Reading(g, Entering(s.pcs[chosen.value].call, Signalled))
                                      - Reading(g, s.pcs[chosen.value]) else 0)
    {
      if chosen.Some? {
        var u, up := chosen.value, Entering(s.pcs[chosen.value].call, Signalled);
        assert s'.pcs == s.pcs[u := up][t := s'.pcs[t]];
        TotalUpdate(s.pcs, g, u, up);
        TotalUpdate(s.pcs[u := up], g, t, s'.pcs[t]);
      } else {
        assert s'.pcs == s.pcs[t := s'.pcs[t]];
        TotalUpdate(s.pcs, g, t, s'.pcs[t]);
      }
    }
  }

  /** Notifying everybody changes a total only by the notifier, if the gauge reads sleepers on
      `not_full_` and threads woken from it alike. */
  lemma ClearReading<T>(s: State<T>, rights: Rights, t: nat, g: Gauge)
    requires s.ring.Usable() && Enabled(s, rights, Notify(t, None)) && s.pcs[t].call.ClearAll?
    requires forall u: nat | u < |s.pcs| && s.pcs[u].SleepsOn(NotFull) ::
               Reading(g, s.pcs[u]) == Reading(g, Entering(s.pcs[u].call, Signalled))
    ensures var s' := Apply(s, rights, Notify(t, None));
            Total(s'.pcs, g) == Total(s.pcs, g) - Reading(g, s.pcs[t]) + Reading(g, s'.pcs[t])
  {
    var s', woken := Apply(s, rights, Notify(t, None)), Awakened(s.pcs, NotFull);
    assert s'.pcs == woken[t := s'.pcs[t]];
    TotalUpdate(woken, g, t, s'.pcs[t]);
    TotalSame(woken, s.pcs, g);
  }
}
