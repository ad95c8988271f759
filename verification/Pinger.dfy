/** The echo loop of udpecho.go, over three objects: the path-MTU prober, the echo health counter
    and the MTU of the tunnel's network stack.

    `Round` is one pass of the loop for given outcomes of its system calls; `EchoPinger` is the
    loop itself, proved against it. The state carries what has happened so far, so that the
    invariant can speak about whole runs. */
module Pinger {
  import opened PathMTU
  import opened TunnelMTU

  const MAX_CONSECUTIVE_FAILURES: nat := 12

  // ---------------------------------------------------------------- health

  datatype Health = Health(ready: bool, failures: nat)

  datatype HealthEvent = NoEvent | Healthy | StartupFailed | Unhealthy

  function Observed(h: Health, matched: bool): (Health, HealthEvent) {
    if matched then (Health(true, 0), Healthy)
    else if !h.ready then (h, StartupFailed)
    else if h.failures + 1 >= MAX_CONSECUTIVE_FAILURES then (h.(failures := 0), Unhealthy)
    else (h.(failures := h.failures + 1), NoEvent)
  }

  class EchoHealth {
    var ready: bool
    var failures: nat

    function State(): Health reads this { Health(ready, failures) }

    constructor ()
      ensures State() == Health(false, 0)
    {
      ready, failures := false, 0;
    }

    method Observe(matched: bool) returns (event: HealthEvent, firstSuccess: bool)
      modifies this
      ensures (State(), event) == Observed(old(State()), matched)
      ensures firstSuccess <==> ready && !old(ready)
    {
      if matched {
        firstSuccess := !ready;
        ready := true;
        failures := 0;
        return Healthy, firstSuccess;
      }
      if !ready {
        return StartupFailed, false;
      }
      failures := failures + 1;
      if failures >= MAX_CONSECUTIVE_FAILURES {
        failures := 0;
        return Unhealthy, false;
      }
      return NoEvent, false;
    }
  }

  // ---------------------------------------------------------------- one round

  datatype Reply = Answered | Missed | ContextDone

  /** What the outside does in one round: raising the stack MTU for a probe, the write, the wait. */
  datatype Outcomes = Outcomes(raiseOk: bool, writeOk: bool, reply: Reply)

  /** One verdict handed to the health counter. */
  datatype Echo = Echo(padded: bool, matched: bool)

  /** A padded probe handed to the socket after `at` verdicts. */
  datatype Probe = Probe(target: int, stackMTU: int, at: nat)

  datatype State = State(
    prober: Prober,
    stackMTU: int,
    health: Health,
    requestID: nat,
    echoes: seq<Echo>,
    probes: seq<Probe>,
    unhealthyAt: seq<nat>,
    mtus: seq<int>)  // every value put on the stack, in order

  function Put(s: State, mtu: int): State { s.(stackMTU := mtu, mtus := s.mtus + [mtu]) }

  predicate ProbeDue(s: State) {
    s.requestID > 0 && s.health.ready && HasTarget(s.prober)
  }

  function Target(s: State): int
    requires ProbeDue(s)
  {
    s.prober.milestones[s.prober.currentIndex]
  }

  /** Raising the MTU stores the new value even when it reports an error. */
  function Raised(s: State, raiseOk: bool): State
    requires ProbeDue(s)
  {
    var s1 := Put(s, Target(s));
    if raiseOk then s1.(probes := s.probes + [Probe(Target(s), s1.stackMTU, |s.echoes|)])
    else s1.(prober := AfterResult(s.prober, Target(s), false))
  }

  function Settled(s: State, target: int, matched: bool): State {
    var p := AfterResult(s.prober, target, matched);
    Put(s.(prober := p), p.confirmed)
  }

  function Judged(s: State, padded: bool, matched: bool): State {
    var (h, event) := Observed(s.health, matched);
    var s1 := s.(health := h, echoes := s.echoes + [Echo(padded, matched)]);
    var s2 := if event == Unhealthy then s1.(unhealthyAt := s.unhealthyAt + [|s1.echoes|]) else s1;
    var s3 := if event == Unhealthy && s.prober.phase != Disabled
              then Put(s2.(prober := AfterReset(s.prober)), BASE_MTU) else s2;
    if matched && !padded then s3.(prober := AfterArm(s3.prober)) else s3
  }

  predicate Probing(s: State, o: Outcomes) { ProbeDue(s) && o.raiseOk }

  /** The loop goes on unless the context ends or an ordinary request cannot be written. */
  predicate Continues(s: State, o: Outcomes) {
    if o.writeOk then o.reply != ContextDone else Probing(s, o)
  }

  function Concluded(s: State, probing: bool, target: int, matched: bool): State {
    var s1 := if probing then Settled(s, target, matched) else s;
    Judged(s1, probing, matched).(requestID := s.requestID + 1)
  }

  /** The rest of a round, once it is known whether it probes. */
  function Finished(s: State, probing: bool, target: int, o: Outcomes): State {
    if !o.writeOk then
      if probing then Settled(s, target, false).(requestID := s.requestID + 1) else s
    else if o.reply == ContextDone then s
    else Concluded(s, probing, target, o.reply == Answered)
  }

  function Round(s: State, o: Outcomes): State {
    if ProbeDue(s) then Finished(Raised(s, o.raiseOk), o.raiseOk, Target(s), o)
    else Finished(s, false, 0, o)
  }

  // ---------------------------------------------------------------- the invariant

  function PaddedIn(echoes: seq<Echo>): nat {
    if echoes == [] then 0
    else PaddedIn(echoes[..|echoes| - 1]) + if echoes[|echoes| - 1].padded then 1 else 0
  }

  /** The last `k` of `echoes` were all missed. */
  predicate MissedLast(echoes: seq<Echo>, k: nat) {
    k <= |echoes| && forall i | |echoes| - k <= i < |echoes| :: !echoes[i].matched
  }

  function LastOf(echoes: seq<Echo>, k: nat): seq<Echo>
    requires k <= |echoes|
  {
    echoes[|echoes| - k..]
  }

  /** Behind the verdict: twelve misses in a row, at most two of them padded. */
  predicate FairVerdict(echoes: seq<Echo>, n: nat) {
    && n <= |echoes|
    && MissedLast(echoes[..n], MAX_CONSECUTIVE_FAILURES)
    && PaddedIn(LastOf(echoes[..n], MAX_CONSECUTIVE_FAILURES)) <= 2
  }

  /** An ordinary, unpadded echo was matched among verdicts `from` to `to`. */
  ghost predicate PlainMatch(echoes: seq<Echo>, from: nat, to: nat) {
    to <= |echoes| && exists m | from <= m < to :: echoes[m] == Echo(false, true)
  }

  predicate HealthInv(s: State) {
    && s.health.failures < MAX_CONSECUTIVE_FAILURES
    && MissedLast(s.echoes, s.health.failures)
    && PaddedIn(LastOf(s.echoes, s.health.failures)) <= s.prober.failed
    && (!s.health.ready ==> s.health.failures == 0)
  }

  ghost predicate VerdictInv(s: State) {
    && (forall n | n in s.unhealthyAt :: FairVerdict(s.echoes, n))
    && (forall n, p | n in s.unhealthyAt && p in s.probes ::
          n <= p.at ==> PlainMatch(s.echoes, n, p.at))
    && (s.prober.armed && !s.prober.manual ==>
          forall n | n in s.unhealthyAt :: PlainMatch(s.echoes, n, |s.echoes|))
  }

  predicate StackInv(s: State) {
    && (forall p | p in s.probes :: p.stackMTU == p.target && p.at <= |s.echoes| && p.target in s.prober.milestones)
    && (s.prober.manual ==> s.probes == [] && s.mtus == [])
    && (forall m | m in s.mtus :: m == BASE_MTU || m in s.prober.milestones)
    && (!s.prober.manual ==> s.prober.confirmed == BASE_MTU || s.prober.confirmed in s.prober.milestones)
  }

  ghost predicate PingInv(s: State) {
    PathMTU.Inv(s.prober) && HealthInv(s) && VerdictInv(s) && StackInv(s)
  }

  // ---------------------------------------------------------------- each part of a round keeps it

  lemma RaisedKeeps(s: State, raiseOk: bool)
    requires PingInv(s) && ProbeDue(s)
    ensures PingInv(Raised(s, raiseOk))
  {
    OperationsKeepInv(s.prober, Target(s), false);
    var s1 := Raised(s, raiseOk);
    assert Target(s) in s.prober.milestones;
    forall n, p | n in s1.unhealthyAt && p in s1.probes && n <= p.at
      ensures PlainMatch(s1.echoes, n, p.at)
    {
      assert p in s.probes || p.at == |s.echoes|;
    }
  }

  /** A probe that is settled as missed has used up one of the prober's two attempts. */
  lemma SettledKeeps(s: State, target: int, matched: bool)
    requires PingInv(s) && Accepts(s.prober, target)
    ensures var s' := Settled(s, target, matched);
      && PathMTU.Inv(s'.prober) && VerdictInv(s') && StackInv(s')
      && s'.stackMTU == s'.prober.confirmed
      && (!matched ==> HealthInv(s') && s'.prober.failed == s.prober.failed + 1)
  {
    OperationsKeepInv(s.prober, target, matched);
    assert target in s.prober.milestones;
  }

  lemma PaddedSnoc(echoes: seq<Echo>, e: Echo, k: nat)
    requires k <= |echoes|
    ensures LastOf(echoes + [e], k + 1) == LastOf(echoes, k) + [e]
    ensures PaddedIn(LastOf(echoes + [e], k + 1)) == PaddedIn(LastOf(echoes, k)) + if e.padded then 1 else 0
  {
    assert LastOf(echoes + [e], k + 1) == LastOf(echoes, k) + [e];
    assert (LastOf(echoes, k) + [e])[..k] == LastOf(echoes, k);
  }

  lemma OldVerdictsStay(s: State, s': State)
    requires s.echoes <= s'.echoes && s'.unhealthyAt == s.unhealthyAt && s'.probes == s.probes
    requires VerdictInv(s) && (forall p | p in s.probes :: p.at <= |s.echoes|)
    ensures forall n | n in s'.unhealthyAt :: FairVerdict(s'.echoes, n)
    ensures forall n, p | n in s'.unhealthyAt && p in s'.probes ::
              n <= p.at ==> PlainMatch(s'.echoes, n, p.at)
    ensures s.prober.armed && !s.prober.manual ==>
              forall n | n in s'.unhealthyAt :: PlainMatch(s'.echoes, n, |s'.echoes|)
  {
    forall n | n in s'.unhealthyAt ensures FairVerdict(s'.echoes, n) {
      assert FairVerdict(s.echoes, n);
      assert s'.echoes[..n] == s.echoes[..n];
    }
    forall n, p | n in s'.unhealthyAt && p in s'.probes && n <= p.at
      ensures PlainMatch(s'.echoes, n, p.at)
    {
      assert PlainMatch(s.echoes, n, p.at);
    }
    if s.prober.armed && !s.prober.manual {
      forall n | n in s'.unhealthyAt ensures PlainMatch(s'.echoes, n, |s'.echoes|) {
        assert PlainMatch(s.echoes, n, |s.echoes|);
      }
    }
  }

  /** A match ends the streak; an unpadded one lets the prober probe again. */
  lemma MatchKeeps(s: State, padded: bool)
    requires PathMTU.Inv(s.prober) && VerdictInv(s) && StackInv(s)
    ensures PingInv(Judged(s, padded, true))
  {
    var s' := Judged(s, padded, true);
    OldVerdictsStay(s, s');
    if !padded {
      forall n | n in s'.unhealthyAt ensures PlainMatch(s'.echoes, n, |s'.echoes|) {
        assert FairVerdict(s.echoes, n);
        assert s'.echoes[|s.echoes|] == Echo(false, true);
      }
    }
  }

  /** The twelfth miss in a row: the verdict is fair, and the reset disarms the prober. */
  lemma VerdictKeeps(s: State, padded: bool)
    requires PathMTU.Inv(s.prober) && VerdictInv(s) && StackInv(s) && HealthInv(s)
    requires PaddedIn(LastOf(s.echoes, s.health.failures)) + (if padded then 1 else 0) <= s.prober.failed
    requires s.health.ready && s.health.failures + 1 >= MAX_CONSECUTIVE_FAILURES
    ensures VerdictInv(Judged(s, padded, false))
  {
    var s' := Judged(s, padded, false);
    var e, n := Echo(padded, false), |s.echoes| + 1;
    PaddedSnoc(s.echoes, e, s.health.failures);
    OldVerdictsStay(s, s.(echoes := s'.echoes));
    assert s'.echoes[..n] == s.echoes + [e];
    assert FairVerdict(s'.echoes, n);
    forall m, p | m in s'.unhealthyAt && p in s'.probes && m <= p.at
      ensures PlainMatch(s'.echoes, m, p.at)
    {
      assert m in s.unhealthyAt || m == n;
    }
  }

  /** What a miss does that raises no verdict. */
  lemma MissJudged(s: State, padded: bool)
    requires !s.health.ready || s.health.failures + 1 < MAX_CONSECUTIVE_FAILURES
    ensures Judged(s, padded, false) == s.(
      health := s.health.(failures := if s.health.ready then s.health.failures + 1 else s.health.failures),
      echoes := s.echoes + [Echo(padded, false)])
  {
  }

  /** What the twelfth miss does to the counter, the prober and the stack. */
  lemma VerdictJudged(s: State, padded: bool)
    requires s.health.ready && s.health.failures + 1 >= MAX_CONSECUTIVE_FAILURES
    ensures var s' := Judged(s, padded, false);
      && s'.health == Health(true, 0) && s'.probes == s.probes && s'.echoes == s.echoes + [Echo(padded, false)]
      && (if s.prober.phase == Disabled then s'.prober == s.prober && s'.mtus == s.mtus
          else s'.prober == AfterReset(s.prober) && s'.mtus == s.mtus + [BASE_MTU])
  {
  }

  lemma MissedSnoc(echoes: seq<Echo>, e: Echo, k: nat)
    requires MissedLast(echoes, k) && !e.matched
    ensures MissedLast(echoes + [e], k + 1)
  {
  }

  lemma MissKeepsHealth(s: State, t: State, padded: bool)
    requires HealthInv(s) && (s.health.ready ==> s.health.failures + 1 < MAX_CONSECUTIVE_FAILURES)
    requires PaddedIn(LastOf(s.echoes, s.health.failures)) + (if padded then 1 else 0) <= s.prober.failed
    requires t.echoes == s.echoes + [Echo(padded, false)] && t.prober == s.prober
    requires t.health == s.health.(failures := if s.health.ready then s.health.failures + 1 else s.health.failures)
    ensures HealthInv(t)
  {
    if s.health.ready {
      PaddedSnoc(s.echoes, Echo(padded, false), s.health.failures);
      MissedSnoc(s.echoes, Echo(padded, false), s.health.failures);
    } else {
      assert LastOf(t.echoes, 0) == [];
    }
  }

  lemma VerdictKeepsStack(s: State, padded: bool)
    requires PathMTU.Inv(s.prober) && StackInv(s)
    requires s.health.ready && s.health.failures + 1 >= MAX_CONSECUTIVE_FAILURES
    ensures var s' := Judged(s, padded, false); PathMTU.Inv(s'.prober) && StackInv(s') && HealthInv(s')
  {
    VerdictJudged(s, padded);
    OperationsKeepInv(s.prober, 0, false);
    assert LastOf(Judged(s, padded, false).echoes, 0) == [];
  }

  /** A miss lengthens the streak; a padded one has already been charged to the prober. */
  lemma MissKeeps(s: State, padded: bool)
    requires PathMTU.Inv(s.prober) && VerdictInv(s) && StackInv(s) && HealthInv(s)
    requires PaddedIn(LastOf(s.echoes, s.health.failures)) + (if padded then 1 else 0) <= s.prober.failed
    ensures PingInv(Judged(s, padded, false))
  {
    var s' := Judged(s, padded, false);
    if s.health.ready && s.health.failures + 1 >= MAX_CONSECUTIVE_FAILURES {
      VerdictKeeps(s, padded);
      VerdictKeepsStack(s, padded);
    } else {
      MissJudged(s, padded);
      MissKeepsHealth(s, s', padded);
      OldVerdictsStay(s, s');
    }
  }

  lemma FinishedKeeps(s: State, probing: bool, target: int, o: Outcomes)
    requires PingInv(s) && (probing ==> Accepts(s.prober, target) && s.health.ready)
    ensures PingInv(Finished(s, probing, target, o))
  {
    if probing && (!o.writeOk || o.reply != ContextDone) {
      var matched := o.writeOk && o.reply == Answered;
      SettledKeeps(s, target, matched);
      if matched {
        MatchKeeps(Settled(s, target, matched), true);
      } else if o.writeOk {
        MissKeeps(Settled(s, target, matched), true);
      }
    } else if o.writeOk && o.reply == Answered {
      MatchKeeps(s, false);
    } else if o.writeOk && o.reply == Missed {
      MissKeeps(s, false);
    }
  }

  /** Every round keeps the invariant. */
  lemma RoundKeepsInv(s: State, o: Outcomes)
    requires PingInv(s)
    ensures PingInv(Round(s, o))
  {
    if ProbeDue(s) {
      RaisedKeeps(s, o.raiseOk);
      FinishedKeeps(Raised(s, o.raiseOk), o.raiseOk, Target(s), o);
    } else {
      FinishedKeeps(s, false, 0, o);
    }
  }

  // ---------------------------------------------------------------- the stack MTU

  predicate HeadMatches(s: State) { s.stackMTU == s.prober.confirmed }

  /** The health counter's verdict for this round resets the path. */
  predicate Resets(s: State, o: Outcomes) {
    && o.writeOk && o.reply == Missed && s.health.ready
    && s.health.failures + 1 >= MAX_CONSECUTIVE_FAILURES
    && s.prober.phase != Disabled
  }

  /** A round that goes on leaves the stack at the confirmed MTU, unless raising the MTU for a
      probe fails and no reset puts it back: that failing call has already stored the probe's
      size, and nothing restores it. */
  lemma StackFollowsProberIff(s: State, o: Outcomes)
    requires PingInv(s) && HeadMatches(s) && Continues(s, o)
    ensures HeadMatches(Round(s, o)) <==> !ProbeDue(s) || o.raiseOk || Resets(s, o)
  {
    if ProbeDue(s) {
      OperationsKeepInv(s.prober, Target(s), false);
    }
  }

  // ---------------------------------------------------------------- whole runs

  function AfterRounds(s: State, os: seq<Outcomes>): State {
    if os == [] then s else Round(AfterRounds(s, os[..|os| - 1]), os[|os| - 1])
  }

  /** `runTunnel`'s starting point: a configured MTU, or the floor and a discovered ceiling. */
  function Start(manualMTU: nat, d: Discovery, outer: Outer): State {
    var initial := if manualMTU == 0 then BASE_MTU else manualMTU;
    var ceiling := if manualMTU == 0 then Ceiling(d, outer) else manualMTU;
    State(NewProber(initial, ceiling, manualMTU), initial, Health(false, 0), 0, [], [], [], [])
  }

  lemma StartInv(manualMTU: nat, d: Discovery, outer: Outer)
    ensures PingInv(Start(manualMTU, d, outer)) && HeadMatches(Start(manualMTU, d, outer))
    ensures Start(manualMTU, d, outer).prober.manual <==> manualMTU > 0
  {
    NewProberInv(if manualMTU == 0 then BASE_MTU else manualMTU,
                 if manualMTU == 0 then Ceiling(d, outer) else manualMTU, manualMTU);
  }

  lemma RoundKeepsLadder(s: State, o: Outcomes)
    ensures Round(s, o).prober.milestones == s.prober.milestones
    ensures Round(s, o).prober.manual == s.prober.manual
  {
  }

  lemma {:induction false} RoundsKeepInv(s: State, os: seq<Outcomes>)
    requires PingInv(s)
    ensures PingInv(AfterRounds(s, os))
    ensures AfterRounds(s, os).prober.milestones == s.prober.milestones
    ensures AfterRounds(s, os).prober.manual == s.prober.manual
  {
    if os != [] {
      RoundsKeepInv(s, os[..|os| - 1]);
      RoundKeepsInv(AfterRounds(s, os[..|os| - 1]), os[|os| - 1]);
      RoundKeepsLadder(AfterRounds(s, os[..|os| - 1]), os[|os| - 1]);
    }
  }

  /** In no run can probing by itself bring an unhealthy verdict: at most two of the twelve misses
      behind one were padded probes, and after it no probe goes out before an unpadded echo has
      been matched. */
  lemma ProbingIsHarmless(manualMTU: nat, d: Discovery, outer: Outer, os: seq<Outcomes>)
    ensures var s := AfterRounds(Start(manualMTU, d, outer), os);
      && (forall n | n in s.unhealthyAt :: FairVerdict(s.echoes, n))
      && (forall n, p | n in s.unhealthyAt && p in s.probes && n <= p.at :: PlainMatch(s.echoes, n, p.at))
  {
    StartInv(manualMTU, d, outer);
    RoundsKeepInv(Start(manualMTU, d, outer), os);
  }

  /** A manual MTU is never touched. In automatic mode every value ever put on the stack is the
      IPv6 floor or fits the discovered path once wrapped, and every probe is sent with the stack
      at its size. */
  lemma StackNeverExceedsPath(manualMTU: nat, d: Discovery, outer: Outer, os: seq<Outcomes>)
    ensures var s := AfterRounds(Start(manualMTU, d, outer), os);
      && (manualMTU > 0 ==> s.mtus == [] && s.probes == [])
      && (manualMTU == 0 ==> forall m | m in s.mtus ::
            m == BASE_MTU || BASE_MTU < m <= PathLimit(d, outer) - Overhead(outer))
      && (forall p | p in s.probes :: p.stackMTU == p.target)
  {
    var s0 := Start(manualMTU, d, outer);
    var s := AfterRounds(s0, os);
    StartInv(manualMTU, d, outer);
    RoundsKeepInv(s0, os);
    if manualMTU == 0 {
      NewProberInv(BASE_MTU, Ceiling(d, outer), manualMTU);
      forall m | m in s.mtus && m != BASE_MTU
        ensures BASE_MTU < m <= PathLimit(d, outer) - Overhead(outer)
      {
        var i :| 0 <= i < |s0.prober.milestones| && s0.prober.milestones[i] == m;
        WithinCeilingFits(d, outer, m);
      }
    }
  }

  /** A raise fails in this round, and no reset puts the stack right. */
  predicate Strays(s: State, o: Outcomes) { ProbeDue(s) && !o.raiseOk && !Resets(s, o) }

  ghost predicate NeverStrays(s: State, os: seq<Outcomes>) {
    forall i | 0 <= i < |os| :: StaysAt(s, os, i)
  }

  predicate StaysAt(s: State, os: seq<Outcomes>, i: nat)
    requires i < |os|
  {
    !Strays(AfterRounds(s, os[..i]), os[i])
  }

  predicate MatchesAt(s: State, os: seq<Outcomes>, i: nat)
    requires i <= |os|
  {
    HeadMatches(AfterRounds(s, os[..i]))
  }

  ghost predicate HeadsMatch(s: State, os: seq<Outcomes>) {
    forall i | 0 <= i <= |os| :: MatchesAt(s, os, i)
  }

  lemma HeadsMatchBefore(s: State, os: seq<Outcomes>)
    requires os != []
    ensures HeadsMatch(s, os) <==> HeadsMatch(s, os[..|os| - 1]) && MatchesAt(s, os, |os|)
  {
    var before := os[..|os| - 1];
    forall i | 0 <= i <= |before| ensures MatchesAt(s, before, i) <==> MatchesAt(s, os, i) {
      assert before[..i] == os[..i];
    }
  }

  lemma NeverStraysBefore(s: State, os: seq<Outcomes>)
    requires os != []
    ensures NeverStrays(s, os) <==> NeverStrays(s, os[..|os| - 1]) && StaysAt(s, os, |os| - 1)
    ensures AllContinue(s, os) ==> AllContinue(s, os[..|os| - 1])
  {
    var before := os[..|os| - 1];
    forall i | 0 <= i < |before|
      ensures (StaysAt(s, before, i) <==> StaysAt(s, os, i)) && (ContinuesAt(s, before, i) <==> ContinuesAt(s, os, i))
    {
      assert before[..i] == os[..i] && before[i] == os[i];
    }
  }

  /** Over a whole run the stack is at the confirmed MTU at every head exactly if no round strays. */
  lemma {:induction false} HeadsMatchIff(s: State, os: seq<Outcomes>)
    requires PingInv(s) && HeadMatches(s) && AllContinue(s, os)
    ensures HeadsMatch(s, os) <==> NeverStrays(s, os)
  {
    if os == [] {
      assert os[..0] == [];
    } else {
      var before := os[..|os| - 1];
      HeadsMatchBefore(s, os);
      NeverStraysBefore(s, os);
      HeadsMatchIff(s, before);
      RoundsKeepInv(s, before);
      if HeadsMatch(s, before) {
        assert MatchesAt(s, before, |before|) && before[..|before|] == before;
        LastHead(s, os);
      }
    }
  }

  lemma LastHead(s: State, os: seq<Outcomes>)
    requires os != [] && PingInv(AfterRounds(s, os[..|os| - 1])) && ContinuesAt(s, os, |os| - 1)
    requires MatchesAt(s, os, |os| - 1)
    ensures MatchesAt(s, os, |os|) <==> StaysAt(s, os, |os| - 1)
  {
    assert os[..|os|] == os;
    StackFollowsProberIff(AfterRounds(s, os[..|os| - 1]), os[|os| - 1]);
  }

  /** A run that strays: the first echo is answered and raising the MTU then fails twice. The search
      is over at 1280 and the stack stays at 1360. */
  lemma FailedRaisesStrand() returns (os: seq<Outcomes>)
    ensures var s := AfterRounds(Start(0, Wire(1500), IPv4), os);
      s.stackMTU == 1360 && s.prober.confirmed == 1280 && s.prober.phase == SearchComplete
  {
    var s0 := Start(0, Wire(1500), IPv4);
    var answered, stuck := Outcomes(true, true, Answered), Outcomes(false, true, Answered);
    var s1 := Round(s0, answered);
    StartIsAtBase(s0);
    assert s1 == Judged(s0, false, true).(requestID := 1);
    var s2 := Round(s1, stuck);
    var s3 := Round(s2, stuck);
    os := [answered, stuck, stuck];
    assert os[..2] == [answered, stuck] && [answered, stuck][..1] == [answered] && [answered][..0] == [];
    assert AfterRounds(s0, [answered]) == s1;
    assert AfterRounds(s0, [answered, stuck]) == s2;
  }

  lemma StartIsAtBase(s: State)
    requires s == Start(0, Wire(1500), IPv4)
    ensures s.prober.milestones != [] && s.prober.milestones[0] == 1360 && s.prober.currentIndex == 0
    ensures s.prober.confirmed == 1280 && s.prober.armed && s.prober.phase == Searching && s.prober.failed == 0
  {
    NewProberInv(BASE_MTU, 1440, 0);
    UpToMeaning(4, 1440);
    assert DEFAULT_MILESTONES[..4] == DEFAULT_MILESTONES;
  }

  ghost predicate NeverFailsToRaise(os: seq<Outcomes>) {
    forall i | 0 <= i < |os| :: os[i].raiseOk
  }

  /** Round `i` is not the loop's last. */
  predicate ContinuesAt(s: State, os: seq<Outcomes>, i: nat)
    requires i < |os|
  {
    Continues(AfterRounds(s, os[..i]), os[i])
  }

  ghost predicate AllContinue(s: State, os: seq<Outcomes>) {
    forall i | 0 <= i < |os| :: ContinuesAt(s, os, i)
  }

  /** While raising the MTU succeeds, the stack is at the confirmed MTU at the head of every round. */
  lemma {:induction false} StackFollowsProber(s: State, os: seq<Outcomes>)
    requires PingInv(s) && HeadMatches(s) && NeverFailsToRaise(os) && AllContinue(s, os)
    ensures HeadMatches(AfterRounds(s, os))
  {
    if os != [] {
      var before := os[..|os| - 1];
      forall i | 0 <= i < |before| ensures ContinuesAt(s, before, i) {
        assert before[..i] == os[..i];
        assert ContinuesAt(s, os, i);
      }
      StackFollowsProber(s, before);
      RoundsKeepInv(s, before);
      assert ContinuesAt(s, os, |os| - 1);
      StackFollowsProberIff(AfterRounds(s, before), os[|os| - 1]);
    }
  }

  // ---------------------------------------------------------------- the loop

  class EchoPinger {
    const prober: PeerMTUProber
    const health: EchoHealth
    var stackMTU: int
    var requestID: nat
    ghost var echoes: seq<Echo>
    ghost var probes: seq<Probe>
    ghost var unhealthyAt: seq<nat>
    ghost var mtus: seq<int>

    ghost function Now(): State reads this, prober, health {
      State(prober.State(), stackMTU, health.State(), requestID, echoes, probes, unhealthyAt, mtus)
    }

    constructor (manualMTU: nat, d: Discovery, outer: Outer)
      ensures prober.Valid() && Now() == Start(manualMTU, d, outer)
      ensures fresh(prober) && fresh(health)
    {
      var initial := if manualMTU == 0 then BASE_MTU else manualMTU;
      var ceiling := if manualMTU == 0 then Ceiling(d, outer) else manualMTU;
      prober := new PeerMTUProber(initial, ceiling, manualMTU);
      health := new EchoHealth();
      stackMTU, requestID := initial, 0;
      echoes, probes, unhealthyAt, mtus := [], [], [], [];
    }

    /** The device keeps the value whether or not the stack accepts it. */
    method SetMTU(mtu: int)
      modifies this`stackMTU, this`mtus
      ensures stackMTU == mtu && mtus == old(mtus) + [mtu]
    {
      stackMTU, mtus := mtu, mtus + [mtu];
    }

    /** Decides whether this round probes, and raises the stack MTU if so. */
    method BeginProbe(raiseOk: bool) returns (target: int, probing: bool)
      requires prober.Valid()
      modifies this, prober
      ensures prober.Valid()
      ensures Now() == if ProbeDue(old(Now())) then Raised(old(Now()), raiseOk) else old(Now())
      ensures probing <==> ProbeDue(old(Now())) && raiseOk
      ensures target == if ProbeDue(old(Now())) then Target(old(Now())) else 0
    {
      target, probing := 0, false;
      if requestID > 0 && health.ready {
        var ok;
        target, ok := prober.NextProbeMTU();
        if ok {
          SetMTU(target);
          if raiseOk {
            probing := true;
            probes := probes + [Probe(target, stackMTU, |echoes|)];
          } else {
            var _ := prober.RecordProbeResult(target, false);
          }
        }
      }
    }

    method Settle(target: int, matched: bool)
      requires prober.Valid()
      modifies this, prober
      ensures prober.Valid() && Now() == Settled(old(Now()), target, matched)
    {
      var v := prober.RecordProbeResult(target, matched);
      SetMTU(v.mtu);
    }

    method Judge(padded: bool, matched: bool)
      requires prober.Valid()
      modifies this, prober, health
      ensures prober.Valid() && Now() == Judged(old(Now()), padded, matched)
    {
      var event, _ := health.Observe(matched);
      echoes := echoes + [Echo(padded, matched)];
      if event == Unhealthy {
        unhealthyAt := unhealthyAt + [|echoes|];
        if prober.phase != Disabled {
          prober.ResetProber();
          SetMTU(BASE_MTU);
        }
      }
      if matched && !padded {
        prober.ArmProber();
      }
    }

    method Conclude(probing: bool, target: int, matched: bool)
      requires prober.Valid()
      modifies this, prober, health
      ensures prober.Valid() && Now() == Concluded(old(Now()), probing, target, matched)
    {
      if probing {
        Settle(target, matched);
      }
      Judge(probing, matched);
      requestID := requestID + 1;
    }

    method Finish(probing: bool, target: int, o: Outcomes) returns (goesOn: bool)
      requires prober.Valid()
      modifies this, prober, health
      ensures prober.Valid() && Now() == Finished(old(Now()), probing, target, o)
      ensures goesOn <==> if o.writeOk then o.reply != ContextDone else probing
    {
      if !o.writeOk {
        if !probing {
          return false;
        }
        Settle(target, false);
        requestID := requestID + 1;
        return true;
      }
      if o.reply == ContextDone {
        return false;
      }
      Conclude(probing, target, o.reply == Answered);
      return true;
    }

    method RunRound(o: Outcomes) returns (goesOn: bool)
      requires prober.Valid()
      modifies this, prober, health
      ensures prober.Valid() && Now() == Round(old(Now()), o)
      ensures goesOn <==> Continues(old(Now()), o)
    {
      var target, probing := BeginProbe(o.raiseOk);
      goesOn := Finish(probing, target, o);
    }

    /** The loop, for as many rounds as the outside supplies outcomes; `goesOn` says whether it
        is still running after them. */
    method RunUDPEchoPinger(os: seq<Outcomes>) returns (done: nat, goesOn: bool)
      requires prober.Valid()
      modifies this, prober, health
      ensures prober.Valid() && done <= |os|
      ensures Now() == AfterRounds(old(Now()), os[..done])
      ensures if goesOn then done == |os| else done > 0
      ensures forall i | 0 <= i < done :: ContinuesAt(old(Now()), os, i) <==> i < done - 1 || goesOn
    {
      done, goesOn := 0, true;
      ghost var start := Now();
      while done < |os| && goesOn
        invariant prober.Valid() && done <= |os| && (!goesOn ==> done > 0)
        invariant Now() == AfterRounds(start, os[..done])
        invariant forall i | 0 <= i < done :: ContinuesAt(start, os, i) <==> i < done - 1 || goesOn
      {
        assert os[..done + 1][..done] == os[..done];
        goesOn := RunRound(os[done]);
        assert goesOn <==> ContinuesAt(start, os, done);
        done := done + 1;
      }
    }
  }
}
