/** How the supervisor of tunnel.go answers what its workers tell it, stated on the states before and
    after a step and over whole runs: which events start a recovery, which end it, and which end the
    tunnel. */
module SupervisorAnswers {
  import opened Supervisor

  predicate Handles(s: State, step: Step, event: HealthEvent) {
    step.Handle? && s.main.Handling? && s.main.event == event
  }

  predicate AllCancelled(rs: seq<Recovery>) {
    forall i | 0 <= i < |rs| :: rs[i].cancelled
  }

  // ---------------------------------------------------------------- one event

  /** A healthy echo ends the recovery in progress and is the new baseline. */
  lemma HealthyEndsRecovery(c: Config, s: State, step: Step, s': State)
    requires Inv(c, s) && Takes(c, s, step, s') && Handles(s, step, Healthy)
    ensures s'.main == Supervising && s'.baseline == s.main.seen && s'.inProgress == -1
    ensures |s'.recoveries| == |s.recoveries| && AllCancelled(s'.recoveries)
  {
    CancelEndsAll(s.recoveries, s.inProgress, s'.recoveries);
  }

  lemma CancelEndsAll(rs: seq<Recovery>, n: int, rs': seq<Recovery>)
    requires rs' == CancelAt(rs, n) && forall i | 0 <= i < |rs| :: !rs[i].cancelled <==> i == n
    ensures |rs'| == |rs| && AllCancelled(rs')
  {
  }

  /** A failed start makes the supervisor leave, and changes nothing else. */
  lemma StartupFailedLeaves(c: Config, s: State, step: Step, s': State)
    requires Takes(c, s, step, s') && Handles(s, step, StartupFailed)
    ensures s' == s.(main := Unwinding)
  {
  }

  /** Sustained loss while WireGuard has made progress: no recovery, and a new baseline. */
  lemma UnhealthyButActive(c: Config, s: State, step: Step, s': State)
    requires Takes(c, s, step, s') && Handles(s, step, Unhealthy)
    requires PathActiveSince(s.baseline, s.main.seen, s.main.at)
    ensures s' == s.(main := Supervising, baseline := s.main.seen)
  {
  }

  /** Sustained loss without progress: a recovery is begun exactly if none is in progress. */
  lemma UnhealthyStartsRecovery(c: Config, s: State, step: Step, s': State)
    requires Inv(c, s) && Takes(c, s, step, s') && Handles(s, step, Unhealthy)
    requires !PathActiveSince(s.baseline, s.main.seen, s.main.at)
    ensures s'.main == Supervising && s'.baseline == s.baseline
    ensures if AllCancelled(s.recoveries) then
              && |s'.recoveries| == |s.recoveries| + 1 && s'.recoveries[..|s.recoveries|] == s.recoveries
              && s'.recoveries[|s.recoveries|] == Recovery(Looking, step.pauses, false, s.baseline, s.main.seen, s.main.at)
            else s'.recoveries == s.recoveries
  {
    NoneInProgress(s);
  }

  lemma NoneInProgress(s: State)
    requires OneRecovery(s)
    ensures AllCancelled(s.recoveries) <==> s.inProgress == -1
  {
    if s.inProgress != -1 {
      assert !s.recoveries[s.inProgress].cancelled;
    }
  }

  /** The event the pinger sends is the one that is handled, and the pinger goes on. */
  lemma EventIsDelivered(c: Config, s: State, step: Step, s': State)
    requires Takes(c, s, step, s') && step.TakeEvent?
    ensures s.pinger.Sending? && s'.main == Handling(s.pinger.event, step.seen, step.at) && s'.pinger == Sleeping
  {
  }

  /** What counts as progress: more bytes or a later handshake than the baseline's, or, for want of one,
      a handshake of the last three minutes; never a reading that failed, nor one that has not changed. */
  lemma ProgressMeaning(baseline: Stats, current: Stats, now: nat)
    ensures !current.valid ==> !PathActiveSince(baseline, current, now)
    ensures current.valid ==> !PathActiveSince(current, current, now)
    ensures current.valid && baseline.valid ==>
      (PathActiveSince(baseline, current, now) <==> current.rxBytes > baseline.rxBytes || current.handshake > baseline.handshake)
    ensures current.valid && !baseline.valid ==>
      (PathActiveSince(baseline, current, now) <==> current.handshake > 0 && now <= current.handshake + 180_000)
  {
  }

  /** A recovery asks for a new negotiation only after all its waits; each takes one off. */
  lemma RecoveryWaitsItOut(c: Config, s: State, step: Step, s': State)
    requires Inv(c, s) && Takes(c, s, step, s')
    ensures step.RecoverySignals? ==> s.recoveries[step.i].pauses == 0 && s'.recoveries[step.i].pc == RecoveryExited
    ensures step.RecoveryPauseOver? ==>
      && s'.recoveries[step.i].pauses == s.recoveries[step.i].pauses - 1
      && (s'.recoveries[step.i].pc == Announcing <==> s'.recoveries[step.i].pauses == 0)
  {
    if step.RecoverySignals? || step.RecoveryPauseOver? {
      assert RecoveryInv(c, s.recoveries[step.i]);
    }
  }

  // ---------------------------------------------------------------- over a run

  /** A healthy event, or leaving, cancels what is in progress; nothing else cancels. */
  predicate Cancels(s: State, step: Step) { step.CancelRecovery? || Handles(s, step, Healthy) }

  predicate CancelLaw(s: State, step: Step, s': State) {
    && |s.recoveries| <= |s'.recoveries|
    && (forall i | 0 <= i < |s.recoveries| :: s'.recoveries[i].cancelled <==> s.recoveries[i].cancelled || Cancels(s, step))
    && (forall i | |s.recoveries| <= i < |s'.recoveries| :: !s'.recoveries[i].cancelled)
  }

  lemma KeptCancelLaw(s: State, step: Step, s': State)
    requires s'.recoveries == s.recoveries && !Cancels(s, step)
    ensures CancelLaw(s, step, s')
  {
  }

  lemma AlarmCancelLaw(c: Config, s: State, step: Step, s': State)
    requires Inv(c, s) && Takes(c, s, step, s') && Handles(s, step, Unhealthy)
    ensures CancelLaw(s, step, s')
  {
    if PathActiveSince(s.baseline, s.main.seen, s.main.at) {
      UnhealthyButActive(c, s, step, s');
    } else {
      UnhealthyStartsRecovery(c, s, step, s');
      assert forall i | 0 <= i < |s.recoveries| :: s'.recoveries[..|s.recoveries|][i] == s'.recoveries[i];
    }
  }

  lemma MainCancelLaw(c: Config, s: State, step: Step, s': State)
    requires Inv(c, s) && MainTakes(c, s, step, s')
    ensures CancelLaw(s, step, s')
  {
    if step.CancelRecovery? {
      CancelEndsAll(s.recoveries, s.inProgress, s'.recoveries);
    } else if step.Handle? {
      assert Takes(c, s, step, s');
      match s.main.event
      case Healthy => HealthyEndsRecovery(c, s, step, s');
      case StartupFailed => StartupFailedLeaves(c, s, step, s');
      case Unhealthy => AlarmCancelLaw(c, s, step, s');
    } else {
      KeptCancelLaw(s, step, s');
    }
  }

  lemma RecoveryCancelLaw(s: State, step: Step, s': State)
    requires RecoveryTakes(s, step, s')
    ensures CancelLaw(s, step, s')
  {
    var i := step.i;
    assert s'.recoveries[i].cancelled == s.recoveries[i].cancelled;
  }

  lemma OutsideCancelLaw(s: State, step: Step, s': State)
    requires OutsideTakes(s, step, s')
    ensures CancelLaw(s, step, s')
  {
    KeptCancelLaw(s, step, s');
  }

  lemma RetryCancelLaw(s: State, step: Step, s': State)
    requires RetryTakes(s, step, s')
    ensures CancelLaw(s, step, s')
  {
    KeptCancelLaw(s, step, s');
  }

  lemma PingerCancelLaw(s: State, step: Step, s': State)
    requires PingerTakes(s, step, s')
    ensures CancelLaw(s, step, s')
  {
    KeptCancelLaw(s, step, s');
  }

  lemma StepCancelLaw(c: Config, s: State, step: Step, s': State)
    requires Inv(c, s) && Takes(c, s, step, s')
    ensures CancelLaw(s, step, s')
  {
    if MainTakes(c, s, step, s') {
      MainCancelLaw(c, s, step, s');
    } else if RecoveryTakes(s, step, s') {
      RecoveryCancelLaw(s, step, s');
    } else if RetryTakes(s, step, s') {
      RetryCancelLaw(s, step, s');
    } else if PingerTakes(s, step, s') {
      PingerCancelLaw(s, step, s');
    } else {
      OutsideCancelLaw(s, step, s');
    }
  }

  predicate LawAt(states: seq<State>, steps: seq<Step>, k: nat)
    requires k < |steps| < |states|
  {
    TrackedAt(states, steps, k) && CancelLaw(states[k], steps[k], states[k + 1])
  }

  /** Recovery `i` came up in step `j`. */
  predicate BornIn(states: seq<State>, steps: seq<Step>, i: nat, j: nat)
    requires j < |steps| < |states|
  {
    |states[j].recoveries| <= i < |states[j + 1].recoveries|
  }

  predicate CancelledBetween(states: seq<State>, steps: seq<Step>, j: nat, k: nat)
    requires k <= |steps| < |states|
  {
    exists m | j < m < k :: Cancels(states[m], steps[m])
  }

  lemma {:induction false} LawfulLife(states: seq<State>, steps: seq<Step>, k: nat, i: nat) returns (j: nat)
    requires k <= |steps| < |states| && forall m | 0 <= m < |steps| :: LawAt(states, steps, m)
    requires states[0].recoveries == [] && i < |states[k].recoveries|
    ensures j < k && BornIn(states, steps, i, j) && StartedIn(states, steps, states[k].recoveries[i], j)
    ensures states[k].recoveries[i].cancelled <==> CancelledBetween(states, steps, j, k)
  {
    var n := k - 1;
    assert LawAt(states, steps, n);
    if i < |states[n].recoveries| {
      j := LawfulLife(states, steps, n, i);
      assert SameOrigin(states[n].recoveries[i], states[k].recoveries[i]);
      assert CancelledBetween(states, steps, j, k) <==> CancelledBetween(states, steps, j, n) || Cancels(states[n], steps[n]);
    } else {
      j := n;
      assert FreshOrigin(states[j], states[k].recoveries[i]);
      forall m | 0 <= m < |steps| ensures TrackedAt(states, steps, m) {
        assert LawAt(states, steps, m);
      }
      BaselineIsLastGood(states, steps, j);
    }
  }

  /** The life of every recovery in a run: it was started at an unhealthy event whose statistics show
      no progress since the last good ones, and it is cancelled exactly if a healthy event has been
      handled since, or the supervisor has left. */
  lemma RecoveryLife(c: Config, states: seq<State>, steps: seq<Step>, k: nat, i: nat) returns (j: nat)
    requires Run(c, states, steps) && Init(states[0]) && k < |states| && i < |states[k].recoveries|
    ensures j < k && BornIn(states, steps, i, j) && StartedIn(states, steps, states[k].recoveries[i], j)
    ensures states[k].recoveries[i].cancelled <==> CancelledBetween(states, steps, j, k)
  {
    forall m | 0 <= m < |steps| ensures LawAt(states, steps, m) {
      RunKeepsInv(c, states, steps, m);
      StepTracked(c, states[m], steps[m], states[m + 1]);
      StepCancelLaw(c, states[m], steps[m], states[m + 1]);
    }
    j := LawfulLife(states, steps, k, i);
  }

  // ---------------------------------------------------------------- what ends the tunnel

  /** The supervisor begins to leave in these steps and no others. */
  predicate Leaves(s: State, step: Step) {
    step.ProxyFails? || step.SeeDone? || step.SeeEchoError? || step.SeeRenegotiate? || Handles(s, step, StartupFailed)
  }

  /** What a step means for the supervisor: whether it begins to leave, and what becomes of the signals. */
  predicate Told(s: State, step: Step, s': State) {
    && (s.main != Unwinding && s'.main == Unwinding <==> Leaves(s, step))
    && (s'.renegotiate <==> (s.renegotiate || step.RetrySignal? || step.RecoverySignals?) && !step.SeeRenegotiate?)
    && (s'.echoError <==> (s.echoError || step.PingerFails?) && !step.SeeEchoError?)
    && (step.SeeRenegotiate? || step.SeeEchoError? ==> s.main == Supervising)
    && (step.RetrySignal? || step.RecoverySignals? ==> !s.renegotiate)
    && (step.PingerFails? ==> !s.echoError)
  }

  predicate Untold(s: State, step: Step, s': State) {
    && s'.renegotiate == s.renegotiate && s'.echoError == s.echoError
    && !step.RetrySignal? && !step.RecoverySignals? && !step.PingerFails?
  }

  lemma MovingOnTells(s: State, step: Step, s': State)
    requires MainMovesOn(s, step, s')
    ensures Told(s, step, s')
  {
  }

  lemma HandlingTells(c: Config, s: State, step: Step, s': State)
    requires MainTakes(c, s, step, s') && step.Handle?
    ensures Told(s, step, s')
  {
    assert Takes(c, s, step, s');
    HandlingKeepsSignals(c, s, step, s');
    match s.main.event
    case Healthy => HealthySupervises(c, s, step, s');
    case StartupFailed => StartupFailedLeaves(c, s, step, s');
    case Unhealthy => UnhealthySupervises(c, s, step, s');
  }

  lemma HandlingKeepsSignals(c: Config, s: State, step: Step, s': State)
    requires MainTakes(c, s, step, s') && step.Handle?
    ensures Untold(s, step, s')
  {
    assert s' == Handled(s, step.pauses);
    if s.main.event == Unhealthy {
      AlarmKeepsSignals(s, step.pauses, s.main.seen, s.main.at);
    }
  }

  lemma AlarmKeepsSignals(s: State, pauses: nat, seen: Stats, at: nat)
    ensures var t := Alarmed(s, pauses, seen, at);
      t.renegotiate == s.renegotiate && t.echoError == s.echoError && t.main == Supervising
  {
  }

  lemma HealthySupervises(c: Config, s: State, step: Step, s': State)
    requires MainTakes(c, s, step, s') && Handles(s, step, Healthy)
    ensures s'.main == Supervising
  {
  }

  lemma UnhealthySupervises(c: Config, s: State, step: Step, s': State)
    requires MainTakes(c, s, step, s') && Handles(s, step, Unhealthy)
    ensures s'.main == Supervising
  {
    AlarmKeepsSignals(s, step.pauses, s.main.seen, s.main.at);
  }

  lemma CancelTells(c: Config, s: State, step: Step, s': State)
    requires MainTakes(c, s, step, s') && (step.CancelRecovery? || step.TakeEvent?)
    ensures Told(s, step, s')
  {
  }

  lemma RetryTells(s: State, step: Step, s': State)
    requires RetryTakes(s, step, s')
    ensures Told(s, step, s') && (step.RetrySignal? ==> s.retry == Signalling && s'.retry == RetryExited)
  {
  }

  lemma PingerTells(s: State, step: Step, s': State)
    requires PingerTakes(s, step, s')
    ensures Told(s, step, s')
  {
  }

  lemma RecoveryTells(s: State, step: Step, s': State)
    requires RecoveryTakes(s, step, s')
    ensures Told(s, step, s') && (step.RecoverySignals? ==> s.recoveries[step.i].pc == Announcing)
  {
  }

  lemma OutsideTells(s: State, step: Step, s': State)
    requires OutsideTakes(s, step, s')
    ensures Told(s, step, s')
  {
  }

  lemma StepTells(c: Config, s: State, step: Step, s': State)
    requires Takes(c, s, step, s')
    ensures Told(s, step, s')
  {
    if MainTakes(c, s, step, s') {
      if step.Handle? {
        HandlingTells(c, s, step, s');
      } else if step.CancelRecovery? || step.TakeEvent? {
        CancelTells(c, s, step, s');
      } else {
        MovingOnTells(s, step, s');
      }
    } else if RetryTakes(s, step, s') {
      RetryTells(s, step, s');
    } else if PingerTakes(s, step, s') {
      PingerTells(s, step, s');
    } else if RecoveryTakes(s, step, s') {
      RecoveryTells(s, step, s');
    } else {
      OutsideTells(s, step, s');
    }
  }

  lemma LeavesExactly(c: Config, s: State, step: Step, s': State)
    requires Takes(c, s, step, s')
    ensures s.main != Unwinding && s'.main == Unwinding <==> Leaves(s, step)
  {
    StepTells(c, s, step, s');
  }

  /** Neither signal is lost: it waits until the supervisor leaves over it. */
  lemma SignalsWait(c: Config, s: State, step: Step, s': State)
    requires Takes(c, s, step, s')
    ensures s.renegotiate && !s'.renegotiate ==> s.main == Supervising && s'.main == Unwinding
    ensures s.echoError && !s'.echoError ==> s.main == Supervising && s'.main == Unwinding
  {
    StepTells(c, s, step, s');
  }

  /** And each is raised by the worker it comes from: exhaustion by a retry loop or a recovery that
      has run out, the error by a pinger that has failed. */
  lemma SignalsHaveCause(c: Config, s: State, step: Step, s': State)
    requires Takes(c, s, step, s')
    ensures !s.renegotiate && s'.renegotiate <==> step.RetrySignal? || step.RecoverySignals?
    ensures !s.echoError && s'.echoError <==> step.PingerFails?
  {
    StepTells(c, s, step, s');
  }

  /** It can leave whenever the context is done, an error waits or a new negotiation is asked for. */
  lemma CanLeave(c: Config, s: State)
    requires s.main == Supervising
    ensures s.cancelled ==> CanStep(c, s, SeeDone)
    ensures s.echoError ==> CanStep(c, s, SeeEchoError)
    ensures s.renegotiate ==> CanStep(c, s, SeeRenegotiate)
  {
    if s.cancelled {
      ByMain(c, s, SeeDone, s.(main := Unwinding));
    }
    if s.echoError {
      ByMain(c, s, SeeEchoError, s.(main := Unwinding, echoError := false));
    }
    if s.renegotiate {
      ByMain(c, s, SeeRenegotiate, s.(main := Unwinding, renegotiate := false));
    }
  }

  lemma ByMain(c: Config, s: State, step: Step, s': State)
    requires MainTakes(c, s, step, s')
    ensures CanStep(c, s, step)
  {
    assert Takes(c, s, step, s');
  }

  lemma ByWorker(c: Config, s: State, step: Step, s': State)
    requires RetryTakes(s, step, s') || PingerTakes(s, step, s') || RecoveryTakes(s, step, s')
    ensures CanStep(c, s, step)
  {
    assert Takes(c, s, step, s');
  }

  /** Nor does anything but the channel's one place, or the supervisor being busy, keep a worker from
      telling it. */
  lemma CanTell(c: Config, s: State, seen: Stats, at: nat)
    ensures s.retry == Signalling && !s.renegotiate ==> CanStep(c, s, RetrySignal)
    ensures forall i: nat | i < |s.recoveries| && s.recoveries[i].pc == Announcing && !s.renegotiate :: CanStep(c, s, RecoverySignals(i))
    ensures s.pinger == Failing && !s.echoError ==> CanStep(c, s, PingerFails)
    ensures s.pinger.Sending? && s.main == Supervising ==> CanStep(c, s, TakeEvent(seen, at))
  {
    if s.retry == Signalling && !s.renegotiate {
      ByWorker(c, s, RetrySignal, s.(retry := RetryExited, renegotiate := true));
    }
    forall i: nat | i < |s.recoveries| && s.recoveries[i].pc == Announcing && !s.renegotiate
      ensures CanStep(c, s, RecoverySignals(i))
    {
      ByWorker(c, s, RecoverySignals(i), Moved(s, i, RecoveryExited, s.recoveries[i].pauses).(renegotiate := true));
    }
    if s.pinger == Failing && !s.echoError {
      ByWorker(c, s, PingerFails, s.(pinger := PingerExited, echoError := true));
    }
    if s.pinger.Sending? && s.main == Supervising {
      ByMain(c, s, TakeEvent(seen, at), s.(main := Handling(s.pinger.event, seen, at), pinger := Sleeping));
    }
  }
}
