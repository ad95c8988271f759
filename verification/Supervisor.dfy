/** The life of one tunnel: `runTunnel` of tunnel.go and the goroutines it starts, as interleaved
    atomic steps.

    The supervisor selects over its context, the pinger's error, the renegotiation signal and the
    pinger's health events. The retry loop and each recovery may signal renegotiation on a channel
    that holds one signal; health events are handed over directly. When the supervisor leaves, it
    cancels the recovery in progress and the common context, and joins every worker. */
module Supervisor {
  import opened Totals
  import EndpointRetry

  // ---------------------------------------------------------------- WireGuard statistics

  /** `handshake` is zero when there has been none; times are in milliseconds. */
  datatype Stats = Stats(valid: bool, handshake: nat, rxBytes: nat)

  const RECENT_HANDSHAKE: nat := 180_000

  predicate PathActiveSince(baseline: Stats, current: Stats, now: nat) {
    current.valid &&
    if baseline.valid then current.rxBytes > baseline.rxBytes || current.handshake > baseline.handshake
    else current.handshake != 0 && now - current.handshake <= RECENT_HANDSHAKE
  }

  // ---------------------------------------------------------------- the state

  datatype HealthEvent = Healthy | StartupFailed | Unhealthy

  datatype Main =
    | Starting
    | Supervising
    | Handling(event: HealthEvent, seen: Stats, at: nat)
    | Unwinding  // about to cancel the recovery in progress, if any
    | Stopping   // about to cancel the common context
    | Joining
    | Returned

  datatype Retry = Selecting | Checking | Signalling | RetryExited

  datatype Pinger = Top | Reading | Sending(event: HealthEvent) | Sleeping | Failing | PingerExited

  datatype RecoveryPc = Looking | Pausing | Announcing | RecoveryExited

  /** `pauses`: the waits it has still to make; the rest is what it was started on. */
  datatype Recovery = Recovery(pc: RecoveryPc, pauses: nat, cancelled: bool, baseline: Stats, seen: Stats, at: nat)

  datatype State = State(
    main: Main,
    retry: Retry,
    pinger: Pinger,
    recoveries: seq<Recovery>,
    inProgress: int,      // the recovery the supervisor can cancel, or -1
    baseline: Stats,
    cancelled: bool,      // the common context
    renegotiate: bool,    // a signal is waiting
    echoError: bool,      // an error is waiting
    tick: bool,           // a tick of the retry loop's clock is waiting
    nomination: bool,     // a late nomination is waiting
    nominationUsed: bool,
    checksLeft: nat)      // the retry loop's checks still to come that can leave it running

  datatype Config = Config(knownEndpoints: nat)

  /** Two rounds, each a wait for every endpoint and one more. */
  function MaxPauses(c: Config): nat { 2 * (c.knownEndpoints + 2) }

  // ---------------------------------------------------------------- the steps

  datatype Step =
    // the world outside
    | Clock | LateNomination | ParentCancels
    // the supervisor
    | ProxyFails | ProxyStarts
    | SeeDone | SeeEchoError | SeeRenegotiate | TakeEvent(seen: Stats, at: nat)
    | Handle(pauses: nat)
    | CancelRecovery | StopLifecycle | Join
    // the retry loop
    | RetryDone | RetryTick | RetryNomination(checks: bool) | RetryCheck(to: Retry) | RetrySignal | RetryGivesUp
    // the pinger
    | PingerBegins(next: Pinger) | PingerAnswered(next: Pinger) | PingerReadCancelled
    | PingerGivesUp | PingerWakes | PingerStopsSleeping | PingerFails
    // recovery `i`
    | RecoveryLooks(i: nat) | RecoveryPauseOver(i: nat) | RecoveryDone(i: nat) | RecoverySignals(i: nat)

  function StartRecovery(s: State, pauses: nat, seen: Stats, at: nat): State {
    s.(main := Supervising,
       recoveries := s.recoveries + [Recovery(Looking, pauses, false, s.baseline, seen, at)],
       inProgress := |s.recoveries|)
  }

  function CancelAt(rs: seq<Recovery>, i: int): seq<Recovery> {
    if 0 <= i < |rs| then rs[i := rs[i].(cancelled := true)] else rs
  }

  /** The supervisor cancels the recovery in progress, if there is one. */
  function Cancelled(s: State, next: Main): State {
    s.(main := next, recoveries := CancelAt(s.recoveries, s.inProgress), inProgress := -1)
  }

  /** On sustained loss: nothing if WireGuard has made progress, else a recovery unless there is one. */
  function Alarmed(s: State, pauses: nat, seen: Stats, at: nat): State {
    if PathActiveSince(s.baseline, seen, at) then s.(baseline := seen, main := Supervising)
    else if s.inProgress == -1 then StartRecovery(s, pauses, seen, at)
    else s.(main := Supervising)
  }

  function Handled(s: State, pauses: nat): State
    requires s.main.Handling?
  {
    match s.main.event
    case Healthy => Cancelled(s, Supervising).(baseline := s.main.seen)
    case StartupFailed => s.(main := Unwinding)
    case Unhealthy => Alarmed(s, pauses, s.main.seen, s.main.at)
  }

  predicate WorkersExited(s: State) {
    s.retry == RetryExited && s.pinger == PingerExited
    && forall i | 0 <= i < |s.recoveries| :: s.recoveries[i].pc == RecoveryExited
  }

  predicate OutsideTakes(s: State, step: Step, s': State) {
    match step
    case Clock => s' == s.(tick := true)
    case LateNomination => !s.nominationUsed && !s.nomination && s' == s.(nomination := true)
    case ParentCancels => s' == s.(cancelled := true)
    case _ => false
  }

  /** Steps of the supervisor that leave the recoveries and the health event alone. */
  predicate MainMovesOn(s: State, step: Step, s': State) {
    match step
    case ProxyFails => s.main == Starting && s' == s.(main := Unwinding)
    case ProxyStarts => s.main == Starting && s' == s.(main := Supervising)
    case SeeDone => s.main == Supervising && s.cancelled && s' == s.(main := Unwinding)
    case SeeEchoError => s.main == Supervising && s.echoError && s' == s.(main := Unwinding, echoError := false)
    case SeeRenegotiate => s.main == Supervising && s.renegotiate && s' == s.(main := Unwinding, renegotiate := false)
    case StopLifecycle => s.main == Stopping && s' == s.(main := Joining, cancelled := true)
    case Join => s.main == Joining && WorkersExited(s) && s' == s.(main := Returned)
    case _ => false
  }

  predicate MainTakes(c: Config, s: State, step: Step, s': State) {
    match step
    case TakeEvent(seen, at) => s.main == Supervising && s.pinger.Sending?
      && s' == s.(main := Handling(s.pinger.event, seen, at), pinger := Sleeping)
    case Handle(pauses) => s.main.Handling? && 2 <= pauses <= MaxPauses(c) && s' == Handled(s, pauses)
    case CancelRecovery => s.main == Unwinding && s' == Cancelled(s, Stopping)
    case _ => MainMovesOn(s, step, s')
  }

  predicate RetryTakes(s: State, step: Step, s': State) {
    match step
    case RetryDone => s.retry == Selecting && s.cancelled && s' == s.(retry := RetryExited)
    case RetryTick => s.retry == Selecting && s.tick && s' == s.(retry := Checking, tick := false)
    case RetryNomination(checks) => s.retry == Selecting && s.nomination
      && s' == s.(retry := if checks then Checking else Selecting, nomination := false, nominationUsed := true)
    case RetryCheck(to) => s.retry == Checking && to != Checking && (to == Selecting ==> s.checksLeft > 0)
      && s' == s.(retry := to, checksLeft := if to == Selecting then s.checksLeft - 1 else s.checksLeft)
    case RetrySignal => s.retry == Signalling && !s.renegotiate && s' == s.(retry := RetryExited, renegotiate := true)
    case RetryGivesUp => s.retry == Signalling && s.cancelled && s' == s.(retry := RetryExited)
    case _ => false
  }

  predicate PingerTakes(s: State, step: Step, s': State) {
    match step
    case PingerBegins(next) => s.pinger == Top && s' == s.(pinger := next)
      && if s.cancelled then next == PingerExited else next != Top && !next.Sending?
    case PingerAnswered(next) => s.pinger == Reading && s' == s.(pinger := next)
      && if s.cancelled then next == PingerExited else next == Sleeping || next.Sending?
    case PingerReadCancelled => s.pinger == Reading && s.cancelled && s' == s.(pinger := PingerExited)
    case PingerGivesUp => s.pinger.Sending? && s.cancelled && s' == s.(pinger := PingerExited)
    case PingerWakes => s.pinger == Sleeping && s' == s.(pinger := Top)
    case PingerStopsSleeping => s.pinger == Sleeping && s.cancelled && s' == s.(pinger := PingerExited)
    case PingerFails => s.pinger == Failing && !s.echoError && s' == s.(pinger := PingerExited, echoError := true)
    case _ => false
  }

  predicate DoneFor(s: State, r: Recovery) { s.cancelled || r.cancelled }

  /** Recovery `i` moves to `pc`, having made one wait if `pauses` says so. */
  function Moved(s: State, i: nat, pc: RecoveryPc, pauses: nat): State
    requires i < |s.recoveries|
  {
    s.(recoveries := s.recoveries[i := s.recoveries[i].(pc := pc, pauses := pauses)])
  }

  predicate RecoveryTakes(s: State, step: Step, s': State) {
    match step
    case RecoveryLooks(i) => i < |s.recoveries| && s.recoveries[i].pc == Looking
      && s' == Moved(s, i, Pausing, s.recoveries[i].pauses)
    case RecoveryPauseOver(i) => i < |s.recoveries| && s.recoveries[i].pc == Pausing && s.recoveries[i].pauses > 0
      && s' == Moved(s, i, if s.recoveries[i].pauses == 1 then Announcing else Looking, s.recoveries[i].pauses - 1)
    case RecoveryDone(i) => i < |s.recoveries| && s.recoveries[i].pc != RecoveryExited && DoneFor(s, s.recoveries[i])
      && s' == Moved(s, i, RecoveryExited, s.recoveries[i].pauses)
    case RecoverySignals(i) => i < |s.recoveries| && s.recoveries[i].pc == Announcing && !s.renegotiate
      && s' == Moved(s, i, RecoveryExited, s.recoveries[i].pauses).(renegotiate := true)
    case _ => false
  }

  predicate Takes(c: Config, s: State, step: Step, s': State) {
    || OutsideTakes(s, step, s')
    || MainTakes(c, s, step, s')
    || RetryTakes(s, step, s')
    || PingerTakes(s, step, s')
    || RecoveryTakes(s, step, s')
  }

  predicate Init(s: State) {
    && s.main == Starting && s.retry == Selecting && s.pinger == Top && s.recoveries == [] && s.inProgress == -1
    && !s.renegotiate && !s.echoError && !s.tick && !s.nomination && !s.nominationUsed
    && s.checksLeft == EndpointRetry.MAX_CHECKS
  }

  // ---------------------------------------------------------------- the invariant

  predicate RecoveryInv(c: Config, r: Recovery) {
    && !PathActiveSince(r.baseline, r.seen, r.at)
    && r.pauses <= MaxPauses(c)
    && (r.pc in {Looking, Pausing} ==> r.pauses > 0)
    && (r.pc == Announcing ==> r.pauses == 0)
  }

  /** Only the recovery in progress is not cancelled. */
  predicate OneRecovery(s: State) {
    && -1 <= s.inProgress < |s.recoveries|
    && forall i | 0 <= i < |s.recoveries| :: !s.recoveries[i].cancelled <==> i == s.inProgress
  }

  predicate FlowInv(s: State) {
    && (s.echoError ==> s.pinger == PingerExited)
    && (s.main.Joining? || s.main.Returned? ==> s.cancelled)
    && (s.main.Stopping? || s.main.Joining? || s.main.Returned? ==> s.inProgress == -1)
    && (s.main.Returned? ==> WorkersExited(s))
    && (s.nomination ==> !s.nominationUsed)
  }

  predicate RecoveriesInv(c: Config, rs: seq<Recovery>) {
    forall i | 0 <= i < |rs| :: RecoveryInv(c, rs[i])
  }

  predicate Inv(c: Config, s: State) { OneRecovery(s) && FlowInv(s) && RecoveriesInv(c, s.recoveries) }

  lemma CancelledKeeps(c: Config, s: State, next: Main)
    requires Inv(c, s) && (next == Stopping || next == Supervising) && !s.main.Returned? && !s.main.Joining?
    ensures Inv(c, Cancelled(s, next))
  {
    if s.inProgress != -1 {
      assert RecoveryInv(c, s.recoveries[s.inProgress]);
    }
  }

  lemma StartKeeps(c: Config, s: State, pauses: nat, seen: Stats, at: nat)
    requires Inv(c, s) && s.main.Handling? && s.inProgress == -1 && 2 <= pauses <= MaxPauses(c)
    requires !PathActiveSince(s.baseline, seen, at)
    ensures Inv(c, StartRecovery(s, pauses, seen, at))
  {
    var started := Recovery(Looking, pauses, false, s.baseline, seen, at);
    assert RecoveryInv(c, started);
    forall i | 0 <= i < |s.recoveries + [started]| ensures RecoveryInv(c, (s.recoveries + [started])[i]) {
      assert i < |s.recoveries| ==> RecoveryInv(c, s.recoveries[i]);
    }
  }

  lemma HandledKeeps(c: Config, s: State, pauses: nat)
    requires Inv(c, s) && s.main.Handling? && 2 <= pauses <= MaxPauses(c)
    ensures Inv(c, Handled(s, pauses))
  {
    match s.main.event
    case Healthy =>
      CancelledKeeps(c, s, Supervising);
      RebasedKeeps(c, Cancelled(s, Supervising), s.main.seen);
    case StartupFailed => OnwardKeeps(c, s, Unwinding);
    case Unhealthy => AlarmedKeeps(c, s, pauses, s.main.seen, s.main.at);
  }

  lemma AlarmedKeeps(c: Config, s: State, pauses: nat, seen: Stats, at: nat)
    requires Inv(c, s) && s.main.Handling? && 2 <= pauses <= MaxPauses(c)
    ensures Inv(c, Alarmed(s, pauses, seen, at))
  {
    if PathActiveSince(s.baseline, seen, at) {
      OnwardKeeps(c, s, Supervising);
      RebasedKeeps(c, s.(main := Supervising), seen);
    } else if s.inProgress == -1 {
      StartKeeps(c, s, pauses, seen, at);
    } else {
      OnwardKeeps(c, s, Supervising);
    }
  }

  lemma OnwardKeeps(c: Config, s: State, next: Main)
    requires Inv(c, s) && !s.main.Returned? && !s.main.Joining?
    requires next == Unwinding || next == Supervising || next.Handling?
    ensures Inv(c, s.(main := next))
  {
  }

  lemma RebasedKeeps(c: Config, s: State, baseline: Stats)
    requires Inv(c, s)
    ensures Inv(c, s.(baseline := baseline))
  {
  }

  lemma MovingOnKeeps(c: Config, s: State, step: Step, s': State)
    requires Inv(c, s) && MainMovesOn(s, step, s')
    ensures Inv(c, s')
  {
  }

  lemma TakeKeeps(c: Config, s: State, main: Main)
    requires Inv(c, s) && s.main == Supervising && s.pinger.Sending? && main.Handling?
    ensures Inv(c, s.(main := main, pinger := Sleeping))
  {
  }

  lemma MainKeeps(c: Config, s: State, step: Step, s': State)
    requires Inv(c, s) && MainTakes(c, s, step, s')
    ensures Inv(c, s')
  {
    if step.Handle? {
      HandledKeeps(c, s, step.pauses);
    } else if step.CancelRecovery? {
      CancelledKeeps(c, s, Stopping);
    } else if step.TakeEvent? {
      TakeKeeps(c, s, s'.main);
    } else {
      MovingOnKeeps(c, s, step, s');
    }
  }

  lemma HandledStaysCancelled(s: State, pauses: nat)
    requires s.main.Handling?
    ensures Handled(s, pauses).cancelled == s.cancelled
  {
  }

  lemma MainStaysCancelled(c: Config, s: State, step: Step, s': State)
    requires s.cancelled && MainTakes(c, s, step, s')
    ensures s'.cancelled
  {
    if step.Handle? {
      HandledStaysCancelled(s, step.pauses);
    }
  }

  /** What a recovery does to itself touches nothing the supervisor relies on. */
  lemma MovedKeeps(c: Config, s: State, i: nat, pc: RecoveryPc, pauses: nat)
    requires Inv(c, s) && i < |s.recoveries| && s.recoveries[i].pc != RecoveryExited
    requires RecoveryInv(c, s.recoveries[i].(pc := pc, pauses := pauses))
    ensures Inv(c, Moved(s, i, pc, pauses))
  {
  }

  lemma RecoveryKeeps(c: Config, s: State, step: Step, s': State)
    requires Inv(c, s) && RecoveryTakes(s, step, s')
    ensures Inv(c, s') && (s.cancelled ==> s'.cancelled)
  {
    var i := step.i;
    assert RecoveryInv(c, s.recoveries[i]);
    MovedKeeps(c, s, i, s'.recoveries[i].pc, s'.recoveries[i].pauses);
    assert FlowInv(s');
  }

  lemma RetryKeeps(c: Config, s: State, step: Step, s': State)
    requires Inv(c, s) && RetryTakes(s, step, s')
    ensures Inv(c, s') && (s.cancelled ==> s'.cancelled)
  {
  }

  lemma PingerKeeps(c: Config, s: State, step: Step, s': State)
    requires Inv(c, s) && PingerTakes(s, step, s')
    ensures Inv(c, s') && (s.cancelled ==> s'.cancelled)
  {
  }

  lemma StepKeepsInv(c: Config, s: State, step: Step, s': State)
    requires Inv(c, s) && Takes(c, s, step, s')
    ensures Inv(c, s') && (s.cancelled ==> s'.cancelled)
  {
    if MainTakes(c, s, step, s') {
      MainKeeps(c, s, step, s');
      if s.cancelled {
        MainStaysCancelled(c, s, step, s');
      }
    } else if RecoveryTakes(s, step, s') {
      RecoveryKeeps(c, s, step, s');
    } else if RetryTakes(s, step, s') {
      RetryKeeps(c, s, step, s');
    } else if PingerTakes(s, step, s') {
      PingerKeeps(c, s, step, s');
    }
  }

  // ---------------------------------------------------------------- safety over runs

  predicate Run(c: Config, states: seq<State>, steps: seq<Step>) {
    && |states| == |steps| + 1
    && forall k | 0 <= k < |steps| :: Takes(c, states[k], steps[k], states[k + 1])
  }

  lemma {:induction false} RunKeepsInv(c: Config, states: seq<State>, steps: seq<Step>, k: nat)
    requires Run(c, states, steps) && Inv(c, states[0]) && k < |states|
    ensures Inv(c, states[k]) && (states[0].cancelled ==> states[k].cancelled)
  {
    if k > 0 {
      RunKeepsInv(c, states, steps, k - 1);
      StepKeepsInv(c, states[k - 1], steps[k - 1], states[k]);
    }
  }

  /** In every state a tunnel reaches, of two recoveries one at least is cancelled, every recovery was
      started on statistics that showed no progress since the baseline, and a tunnel that has returned
      has left no worker behind. */
  lemma AtMostOneRecovery(c: Config, states: seq<State>, steps: seq<Step>, k: nat)
    requires Run(c, states, steps) && Init(states[0]) && k < |states|
    ensures forall i, j | 0 <= i < j < |states[k].recoveries| :: states[k].recoveries[i].cancelled || states[k].recoveries[j].cancelled
    ensures forall r | r in states[k].recoveries :: !PathActiveSince(r.baseline, r.seen, r.at)
    ensures states[k].main == Returned ==> states[k].cancelled && WorkersExited(states[k])
  {
    RunKeepsInv(c, states, steps, k);
    var s := states[k];
    forall r | r in s.recoveries ensures !PathActiveSince(r.baseline, r.seen, r.at) {
      var i :| 0 <= i < |s.recoveries| && s.recoveries[i] == r;
      assert RecoveryInv(c, s.recoveries[i]);
    }
  }

  // ---------------------------------------------------------------- what a recovery is started on

  /** A step of the supervisor that takes its statistics for the new baseline: at a healthy event,
      or at an unhealthy one when WireGuard has made progress. */
  predicate Rebases(s: State, step: Step) {
    step.Handle? && s.main.Handling?
    && (s.main.event == Healthy || (s.main.event == Unhealthy && PathActiveSince(s.baseline, s.main.seen, s.main.at)))
  }

  predicate SameOrigin(r: Recovery, t: Recovery) { t.baseline == r.baseline && t.seen == r.seen && t.at == r.at }

  predicate FreshOrigin(s: State, r: Recovery) {
    s.main == Handling(Unhealthy, r.seen, r.at) && r.baseline == s.baseline && !PathActiveSince(s.baseline, r.seen, r.at)
  }

  /** What a step does to the baseline, and to what recoveries were started on: it keeps that, and
      only handling an unhealthy event adds a recovery. */
  predicate Tracked(s: State, step: Step, s': State) {
    && s'.baseline == (if Rebases(s, step) then s.main.seen else s.baseline)
    && |s.recoveries| <= |s'.recoveries|
    && (forall i | 0 <= i < |s.recoveries| :: SameOrigin(s.recoveries[i], s'.recoveries[i]))
    && (forall i | |s.recoveries| <= i < |s'.recoveries| :: step.Handle? && FreshOrigin(s, s'.recoveries[i]))
  }

  /** Most steps leave the recoveries alone. */
  lemma Untouched(s: State, step: Step, s': State)
    requires s'.recoveries == s.recoveries
    requires s'.baseline == if Rebases(s, step) then s.main.seen else s.baseline
    ensures Tracked(s, step, s')
  {
  }

  lemma CancelTracked(s: State, step: Step, s': State)
    requires s'.recoveries == CancelAt(s.recoveries, s.inProgress)
    requires s'.baseline == if Rebases(s, step) then s.main.seen else s.baseline
    ensures Tracked(s, step, s')
  {
  }

  lemma AlarmedTracked(s: State, step: Step, pauses: nat)
    requires step.Handle? && s.main.Handling? && s.main.event == Unhealthy
    ensures Tracked(s, step, Alarmed(s, pauses, s.main.seen, s.main.at))
  {
    var seen, at := s.main.seen, s.main.at;
    if !PathActiveSince(s.baseline, seen, at) && s.inProgress == -1 {
      StartTracked(s, step, StartRecovery(s, pauses, seen, at), Recovery(Looking, pauses, false, s.baseline, seen, at));
    } else {
      Untouched(s, step, Alarmed(s, pauses, seen, at));
    }
  }

  lemma StartTracked(s: State, step: Step, s': State, r: Recovery)
    requires step.Handle? && !Rebases(s, step) && FreshOrigin(s, r)
    requires s'.recoveries == s.recoveries + [r] && s'.baseline == s.baseline
    ensures Tracked(s, step, s')
  {
  }

  lemma HandledTracked(s: State, step: Step, pauses: nat, s': State)
    requires step == Handle(pauses) && s.main.Handling? && s' == Handled(s, pauses)
    ensures Tracked(s, step, s')
  {
    match s.main.event
    case Healthy => CancelTracked(s, step, s');
    case StartupFailed => Untouched(s, step, s');
    case Unhealthy => AlarmedTracked(s, step, pauses);
  }

  lemma RecoveryTracked(s: State, step: Step, s': State)
    requires RecoveryTakes(s, step, s')
    ensures Tracked(s, step, s')
  {
    var i := step.i;
    assert SameOrigin(s.recoveries[i], s'.recoveries[i]);
  }

  lemma MainTracked(c: Config, s: State, step: Step, s': State)
    requires MainTakes(c, s, step, s')
    ensures Tracked(s, step, s')
  {
    if step.Handle? {
      HandledTracked(s, step, step.pauses, s');
    } else if step.CancelRecovery? {
      CancelTracked(s, step, s');
    } else {
      Untouched(s, step, s');
    }
  }

  lemma OutsideTracked(s: State, step: Step, s': State)
    requires OutsideTakes(s, step, s')
    ensures Tracked(s, step, s')
  {
    Untouched(s, step, s');
  }

  lemma RetryTracked(s: State, step: Step, s': State)
    requires RetryTakes(s, step, s')
    ensures Tracked(s, step, s')
  {
    Untouched(s, step, s');
  }

  lemma PingerTracked(s: State, step: Step, s': State)
    requires PingerTakes(s, step, s')
    ensures Tracked(s, step, s')
  {
    Untouched(s, step, s');
  }

  lemma StepTracked(c: Config, s: State, step: Step, s': State)
    requires Takes(c, s, step, s')
    ensures Tracked(s, step, s')
  {
    if MainTakes(c, s, step, s') {
      MainTracked(c, s, step, s');
    } else if RecoveryTakes(s, step, s') {
      RecoveryTracked(s, step, s');
    } else if RetryTakes(s, step, s') {
      RetryTracked(s, step, s');
    } else if PingerTakes(s, step, s') {
      PingerTracked(s, step, s');
    } else {
      OutsideTracked(s, step, s');
    }
  }

  predicate TrackedAt(states: seq<State>, steps: seq<Step>, k: nat)
    requires k < |steps| < |states|
  {
    Tracked(states[k], steps[k], states[k + 1])
  }

  /** The statistics last seen when all was well: the initial reading, until there are others. */
  function LastGood(states: seq<State>, steps: seq<Step>, k: nat): Stats
    requires k <= |steps| < |states|
  {
    if k == 0 then states[0].baseline
    else if Rebases(states[k - 1], steps[k - 1]) then states[k - 1].main.seen
    else LastGood(states, steps, k - 1)
  }

  lemma {:induction false} BaselineIsLastGood(states: seq<State>, steps: seq<Step>, k: nat)
    requires k <= |steps| < |states| && forall j | 0 <= j < |steps| :: TrackedAt(states, steps, j)
    ensures states[k].baseline == LastGood(states, steps, k)
  {
    if k > 0 {
      BaselineIsLastGood(states, steps, k - 1);
      assert TrackedAt(states, steps, k - 1);
    }
  }

  /** Recovery `r` was started in step `j`, on the statistics of an unhealthy event that show no
      progress since the last good ones. */
  predicate StartedIn(states: seq<State>, steps: seq<Step>, r: Recovery, j: nat)
    requires j < |steps| < |states|
  {
    && steps[j].Handle? && states[j].main == Handling(Unhealthy, r.seen, r.at)
    && r.baseline == LastGood(states, steps, j)
    && !PathActiveSince(LastGood(states, steps, j), r.seen, r.at)
  }

  lemma {:induction false} TrackedCause(states: seq<State>, steps: seq<Step>, k: nat, i: nat) returns (j: nat)
    requires k <= |steps| < |states| && forall m | 0 <= m < |steps| :: TrackedAt(states, steps, m)
    requires states[0].recoveries == [] && i < |states[k].recoveries|
    ensures j < k && StartedIn(states, steps, states[k].recoveries[i], j)
  {
    assert TrackedAt(states, steps, k - 1);
    if i < |states[k - 1].recoveries| {
      j := TrackedCause(states, steps, k - 1, i);
      assert SameOrigin(states[k - 1].recoveries[i], states[k].recoveries[i]);
    } else {
      j := k - 1;
      assert FreshOrigin(states[j], states[k].recoveries[i]);
      BaselineIsLastGood(states, steps, j);
    }
  }

  /** Every recovery in a run was started at an unhealthy event whose statistics show no progress
      since the last good ones: the initial reading, or those of the last healthy or path-active
      event. */
  lemma RecoveryHasCause(c: Config, states: seq<State>, steps: seq<Step>, k: nat, i: nat) returns (j: nat)
    requires Run(c, states, steps) && Init(states[0]) && k < |states| && i < |states[k].recoveries|
    ensures j < k && StartedIn(states, steps, states[k].recoveries[i], j)
  {
    forall m | 0 <= m < |steps| ensures TrackedAt(states, steps, m) {
      StepTracked(c, states[m], steps[m], states[m + 1]);
    }
    j := TrackedCause(states, steps, k, i);
  }

  // ---------------------------------------------------------------- shutdown ends

  /** More than the steps any recovery ever has to make. */
  function RecoveryBudget(c: Config): nat { 2 * MaxPauses(c) + 1 }

  function RecoveryLeft(r: Recovery): nat {
    match r.pc
    case Looking => 2 * r.pauses + 1
    case Pausing => 2 * r.pauses
    case Announcing => 1
    case RecoveryExited => 0
  }

  function RecoveriesLeft(rs: seq<Recovery>): nat { Total(RecoveryLeft, rs) }

  function MainLeft(c: Config, m: Main): nat {
    match m
    case Handling(_, _, _) => RecoveryBudget(c) + 5
    case Starting => 5
    case Supervising => 4
    case Unwinding => 3
    case Stopping => 2
    case Joining => 1
    case Returned => 0
  }

  function RetryLeft(r: Retry, checksLeft: nat, nominationUsed: bool): nat {
    (if nominationUsed then 0 else 1)
    + match r
      case Selecting => 2 * checksLeft + 3
      case Checking => 2 * checksLeft + 2
      case Signalling => 1
      case RetryExited => 0
  }

  function PingerLeft(c: Config, p: Pinger): nat {
    match p
    case Sending(_) => RecoveryBudget(c) + 4
    case Sleeping => 2
    case PingerExited => 0
    case _ => 1
  }

  /** What is left to all but the supervisor and the recoveries. */
  function OthersLeft(c: Config, s: State): nat {
    RetryLeft(s.retry, s.checksLeft, s.nominationUsed) + PingerLeft(c, s.pinger)
  }

  /** A bound on the steps the tunnel still makes of itself once its context is cancelled. */
  function StepsLeft(c: Config, s: State): nat {
    MainLeft(c, s.main) + OthersLeft(c, s) + RecoveriesLeft(s.recoveries)
  }

  predicate Outside(step: Step) { step.Clock? || step.LateNomination? || step.ParentCancels? }

  lemma CancelAtLeft(rs: seq<Recovery>, i: int)
    ensures RecoveriesLeft(CancelAt(rs, i)) == RecoveriesLeft(rs)
  {
    if 0 <= i < |rs| {
      TotalUpdate(RecoveryLeft, rs, i, rs[i].(cancelled := true));
    }
  }

  predicate UsesUp(c: Config, s: State, t: State) { StepsLeft(c, t) < StepsLeft(c, s) }

  predicate SameOthers(s: State, t: State) {
    t.retry == s.retry && t.checksLeft == s.checksLeft && t.nominationUsed == s.nominationUsed && t.pinger == s.pinger
  }

  lemma CancelUsesUp(c: Config, s: State, t: State)
    requires t.recoveries == CancelAt(s.recoveries, s.inProgress) && SameOthers(s, t) && MainLeft(c, t.main) < MainLeft(c, s.main)
    ensures UsesUp(c, s, t)
  {
    CancelAtLeft(s.recoveries, s.inProgress);
  }

  lemma StartUsesUp(c: Config, s: State, pauses: nat, seen: Stats, at: nat)
    requires s.main.Handling? && pauses <= MaxPauses(c)
    ensures UsesUp(c, s, StartRecovery(s, pauses, seen, at))
  {
    TotalAppend(RecoveryLeft, s.recoveries, Recovery(Looking, pauses, false, s.baseline, seen, at));
  }

  /** A step of the supervisor that leaves the recoveries alone. */
  lemma OnwardUsesUp(c: Config, s: State, t: State)
    requires t.recoveries == s.recoveries && SameOthers(s, t) && MainLeft(c, t.main) < MainLeft(c, s.main)
    ensures UsesUp(c, s, t)
  {
  }

  lemma AlarmedUsesUp(c: Config, s: State, pauses: nat, seen: Stats, at: nat)
    requires s.main.Handling? && pauses <= MaxPauses(c)
    ensures UsesUp(c, s, Alarmed(s, pauses, seen, at))
  {
    if PathActiveSince(s.baseline, seen, at) || s.inProgress != -1 {
      OnwardUsesUp(c, s, Alarmed(s, pauses, seen, at));
    } else {
      StartUsesUp(c, s, pauses, seen, at);
    }
  }

  lemma HandledUsesUp(c: Config, s: State, t: State, pauses: nat)
    requires s.main.Handling? && pauses <= MaxPauses(c) && t == Handled(s, pauses)
    ensures UsesUp(c, s, t)
  {
    match s.main.event
    case Healthy => CancelUsesUp(c, s, t);
    case StartupFailed => OnwardUsesUp(c, s, t);
    case Unhealthy => AlarmedUsesUp(c, s, pauses, s.main.seen, s.main.at);
  }

  lemma TakeUsesUp(c: Config, s: State, t: State)
    requires s.main == Supervising && s.pinger.Sending? && t.main.Handling? && t.pinger == Sleeping
    requires t.recoveries == s.recoveries && t.retry == s.retry && t.checksLeft == s.checksLeft && t.nominationUsed == s.nominationUsed
    ensures UsesUp(c, s, t)
  {
  }

  lemma MovingOnUsesUp(c: Config, s: State, step: Step, s': State)
    requires MainMovesOn(s, step, s')
    ensures UsesUp(c, s, s')
  {
  }

  lemma MainUsesUp(c: Config, s: State, step: Step, s': State)
    requires MainTakes(c, s, step, s')
    ensures UsesUp(c, s, s')
  {
    if step.Handle? {
      HandledUsesUp(c, s, s', step.pauses);
    } else if step.CancelRecovery? {
      CancelUsesUp(c, s, s');
    } else if step.TakeEvent? {
      TakeUsesUp(c, s, s');
    } else {
      MovingOnUsesUp(c, s, step, s');
    }
  }

  lemma RecoveryUsesUp(c: Config, s: State, step: Step, s': State)
    requires Inv(c, s) && RecoveryTakes(s, step, s')
    ensures UsesUp(c, s, s')
  {
    var i := step.i;
    assert RecoveryInv(c, s.recoveries[i]);
    TotalUpdate(RecoveryLeft, s.recoveries, i, s'.recoveries[i]);
  }

  lemma OthersUseUp(c: Config, s: State, t: State)
    requires t.recoveries == s.recoveries && t.main == s.main && OthersLeft(c, t) < OthersLeft(c, s)
    ensures UsesUp(c, s, t)
  {
  }

  lemma RetryLoopUsesUp(s: State, step: Step, s': State)
    requires FlowInv(s) && RetryTakes(s, step, s')
    ensures RetryLeft(s'.retry, s'.checksLeft, s'.nominationUsed) < RetryLeft(s.retry, s.checksLeft, s.nominationUsed)
  {
  }

  lemma RetryUsesUp(c: Config, s: State, step: Step, s': State)
    requires FlowInv(s) && RetryTakes(s, step, s')
    ensures UsesUp(c, s, s')
  {
    assert s'.pinger == s.pinger && s'.recoveries == s.recoveries && s'.main == s.main;
    RetryLoopUsesUp(s, step, s');
    OthersUseUp(c, s, s');
  }

  lemma PingerUsesUp(c: Config, s: State, step: Step, s': State)
    requires s.cancelled && PingerTakes(s, step, s')
    ensures UsesUp(c, s, s')
  {
    assert s'.retry == s.retry && s'.checksLeft == s.checksLeft && s'.nominationUsed == s.nominationUsed;
    OthersUseUp(c, s, s');
  }

  /** Once the context is cancelled, every step the tunnel makes uses up one of `StepsLeft`, and
      nothing that comes in from outside adds to them. */
  lemma StepUsesUp(c: Config, s: State, step: Step, s': State)
    requires Inv(c, s) && s.cancelled && Takes(c, s, step, s')
    ensures if Outside(step) then StepsLeft(c, s') == StepsLeft(c, s) else StepsLeft(c, s') < StepsLeft(c, s)
  {
    if MainTakes(c, s, step, s') {
      MainUsesUp(c, s, step, s');
    } else if RecoveryTakes(s, step, s') {
      RecoveryUsesUp(c, s, step, s');
    } else if RetryTakes(s, step, s') {
      RetryUsesUp(c, s, step, s');
    } else if PingerTakes(s, step, s') {
      PingerUsesUp(c, s, step, s');
    } else {
      OutsideUsesNothing(c, s, step, s');
    }
  }

  lemma OutsideUsesNothing(c: Config, s: State, step: Step, s': State)
    requires OutsideTakes(s, step, s')
    ensures Outside(step) && StepsLeft(c, s') == StepsLeft(c, s)
  {
    assert s'.recoveries == s.recoveries && SameOthers(s, s');
  }

  /** A step that waits for a timer to run out or for the server to answer. */
  predicate Waits(step: Step) { step.PingerWakes? || step.PingerAnswered? || step.RecoveryPauseOver? }

  ghost predicate CanStep(c: Config, s: State, step: Step) { exists s' :: Takes(c, s, step, s') }

  /** The step by which a live retry loop, pinger or recovery leaves, once the context is cancelled. */
  function RetryWayOut(s: State): Step {
    match s.retry case Selecting => RetryDone case Checking => RetryCheck(Signalling) case _ => RetryGivesUp
  }

  function PingerWayOut(s: State): Step {
    match s.pinger
    case Top => PingerBegins(PingerExited)
    case Reading => PingerReadCancelled
    case Sending(_) => PingerGivesUp
    case Sleeping => PingerStopsSleeping
    case _ => PingerFails
  }

  /** Whatever it is blocked on, a worker of a cancelled tunnel can move by itself: no full channel, no
      absent reader, no timer and no silent server can hold it. */
  lemma WorkersNeverStuck(c: Config, s: State)
    requires Inv(c, s) && s.cancelled
    ensures s.retry != RetryExited ==> CanStep(c, s, RetryWayOut(s))
    ensures s.pinger != PingerExited ==> CanStep(c, s, PingerWayOut(s))
    ensures forall i | 0 <= i < |s.recoveries| && s.recoveries[i].pc != RecoveryExited :: CanStep(c, s, RecoveryDone(i))
  {
    if s.retry != RetryExited {
      var step := RetryWayOut(s);
      var s' := s.(retry := if s.retry == Checking then Signalling else RetryExited);
      assert RetryTakes(s, step, s');
      assert Takes(c, s, step, s');
    }
    if s.pinger != PingerExited {
      var step := PingerWayOut(s);
      var s' := s.(pinger := PingerExited, echoError := s.echoError || s.pinger == Failing);
      assert PingerTakes(s, step, s');
      assert Takes(c, s, step, s');
    }
    forall i | 0 <= i < |s.recoveries| && s.recoveries[i].pc != RecoveryExited ensures CanStep(c, s, RecoveryDone(i)) {
      var s' := Moved(s, i, RecoveryExited, s.recoveries[i].pauses);
      assert RecoveryTakes(s, RecoveryDone(i), s');
      assert Takes(c, s, RecoveryDone(i), s');
    }
  }

  /** The supervisor on its way out: it is leaving, or its context is cancelled. */
  predicate Ending(s: State) { s.cancelled || s.main == Unwinding || s.main == Stopping }

  function MainWayOut(s: State): Step {
    match s.main
    case Starting => ProxyFails
    case Supervising => SeeDone
    case Handling(_, _, _) => Handle(2)
    case Unwinding => CancelRecovery
    case Stopping => StopLifecycle
    case _ => Join
  }

  lemma MainMoves(c: Config, s: State)
    requires Ending(s) && s.main != Returned && (s.main == Joining ==> WorkersExited(s))
    ensures CanStep(c, s, MainWayOut(s))
  {
    var step := MainWayOut(s);
    var s' :=
      match s.main
      case Starting => s.(main := Unwinding)
      case Supervising => s.(main := Unwinding)
      case Handling(_, _, _) => Handled(s, 2)
      case Unwinding => Cancelled(s, Stopping)
      case Stopping => s.(main := Joining, cancelled := true)
      case _ => s.(main := Returned);
    assert MainTakes(c, s, step, s');
    assert Takes(c, s, step, s');
  }

  /** Shutdown does not deadlock: until the supervisor has returned, some goroutine can make a step
      that waits for neither a timer nor an answer. */
  lemma NeverStuck(c: Config, s: State) returns (step: Step)
    requires Inv(c, s) && Ending(s) && s.main != Returned
    ensures CanStep(c, s, step) && !Outside(step) && !Waits(step)
  {
    if s.main != Joining || WorkersExited(s) {
      MainMoves(c, s);
      step := MainWayOut(s);
    } else {
      WorkersNeverStuck(c, s);
      if s.retry != RetryExited {
        step := RetryWayOut(s);
      } else if s.pinger != PingerExited {
        step := PingerWayOut(s);
      } else {
        var i :| 0 <= i < |s.recoveries| && s.recoveries[i].pc != RecoveryExited;
        step := RecoveryDone(i);
      }
    }
  }

  function OwnSteps(steps: seq<Step>): nat {
    if steps == [] then 0 else OwnSteps(steps[..|steps| - 1]) + (if Outside(steps[|steps| - 1]) then 0 else 1)
  }

  lemma {:induction false} RunStaysCancelled(c: Config, states: seq<State>, steps: seq<Step>, k: nat, m: nat)
    requires Run(c, states, steps) && k <= m < |states| && Inv(c, states[k]) && states[k].cancelled
    ensures Inv(c, states[m]) && states[m].cancelled
  {
    if k < m {
      RunStaysCancelled(c, states, steps, k, m - 1);
      StepKeepsInv(c, states[m - 1], steps[m - 1], states[m]);
    }
  }

  lemma RunPrefix(c: Config, states: seq<State>, steps: seq<Step>)
    requires Run(c, states, steps) && steps != []
    ensures Run(c, states[..|steps|], steps[..|steps| - 1])
  {
    forall k | 0 <= k < |steps| - 1 ensures Takes(c, states[..|steps|][k], steps[..|steps| - 1][k], states[..|steps|][k + 1]) {
      assert Takes(c, states[k], steps[k], states[k + 1]);
    }
  }

  lemma LastStepUsesUp(c: Config, states: seq<State>, steps: seq<Step>, k: nat)
    requires Run(c, states, steps) && k < |steps| && Inv(c, states[0]) && states[0].cancelled
    ensures if Outside(steps[k]) then StepsLeft(c, states[k + 1]) == StepsLeft(c, states[k])
            else StepsLeft(c, states[k + 1]) < StepsLeft(c, states[k])
  {
    RunKeepsInv(c, states, steps, k);
    StepUsesUp(c, states[k], steps[k], states[k + 1]);
  }

  lemma {:induction false} OwnStepsAreBounded(c: Config, states: seq<State>, steps: seq<Step>)
    requires Run(c, states, steps) && Inv(c, states[0]) && states[0].cancelled
    ensures OwnSteps(steps) + StepsLeft(c, states[|steps|]) <= StepsLeft(c, states[0])
  {
    if steps != [] {
      RunPrefix(c, states, steps);
      OwnStepsAreBounded(c, states[..|steps|], steps[..|steps| - 1]);
      LastStepUsesUp(c, states, steps, |steps| - 1);
    }
  }

  /** Shutdown ends: from the moment the context is cancelled, in whatever state and whatever still
      comes in from outside, the goroutines make together a bounded number of steps; and where a run
      can go no further without the world outside, the supervisor has returned and every worker has
      exited. */
  lemma ShutdownEnds(c: Config, states: seq<State>, steps: seq<Step>, k: nat)
    requires Run(c, states, steps) && Init(states[0]) && k < |states| && states[k].cancelled
    ensures OwnSteps(steps[k..]) <= StepsLeft(c, states[k])
    ensures (forall step :: CanStep(c, states[|steps|], step) ==> Outside(step) || Waits(step))
            ==> states[|steps|].main == Returned && WorkersExited(states[|steps|])
  {
    RunKeepsInv(c, states, steps, k);
    RunKeepsInv(c, states, steps, |steps|);
    OwnStepsAreBounded(c, states[k..], steps[k..]);
    RunStaysCancelled(c, states, steps, k, |steps|);
    if states[|steps|].main != Returned {
      var step := NeverStuck(c, states[|steps|]);
      assert CanStep(c, states[|steps|], step);
    }
  }
}
