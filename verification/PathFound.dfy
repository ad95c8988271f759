/** When the echo loop of udpecho.go probes, and what it ends with: probing stops with an unhealthy
    event and resumes with the next plain match, and on a path that carries packets up to some size the
    search ends at the largest milestone within it. */
module PathFound {
  import opened Pinger
  import opened PathMTU
  import opened TunnelMTU
  import opened EchoVerdicts

  // ---------------------------------------------------------------- when a probe is due

  /** Every unhealthy event has been followed by a plain match. */
  ghost predicate Cleared(s: State) {
    forall n | n in s.unhealthyAt :: PlainMatch(s.echoes, n, |s.echoes|)
  }

  /** An automatic prober is armed exactly then; and requests are numbered on with every verdict. */
  ghost predicate ArmedInv(s: State) {
    && (!s.prober.manual ==> (s.prober.armed <==> Cleared(s)))
    && |s.echoes| <= s.requestID
  }

  lemma OneMorePlain(echoes: seq<Echo>, e: Echo, n: nat)
    requires n <= |echoes|
    ensures PlainMatch(echoes + [e], n, |echoes| + 1) <==> PlainMatch(echoes, n, |echoes|) || e == Echo(false, true)
  {
    var all := echoes + [e];
    if e == Echo(false, true) {
      assert all[|echoes|] == e;
    }
    if PlainMatch(echoes, n, |echoes|) {
      var m :| n <= m < |echoes| && echoes[m] == Echo(false, true);
      assert all[m] == echoes[m];
    }
    if PlainMatch(all, n, |echoes| + 1) && e != Echo(false, true) {
      var m :| n <= m < |echoes| + 1 && all[m] == Echo(false, true);
      assert echoes[m] == all[m];
    }
  }

  /** A verdict that raises no unhealthy event clears things exactly if it is a plain match. */
  lemma ClearedNext(s: State, t: State, e: Echo)
    requires Tells(s) && t.echoes == s.echoes + [e] && t.unhealthyAt == s.unhealthyAt
    ensures Cleared(t) <==> Cleared(s) || e == Echo(false, true)
  {
    forall n | n in s.unhealthyAt
      ensures PlainMatch(t.echoes, n, |t.echoes|) <==> PlainMatch(s.echoes, n, |s.echoes|) || e == Echo(false, true)
    {
      assert RaisesAt(s.echoes, n);
      OneMorePlain(s.echoes, e, n);
    }
  }

  lemma UnclearedNow(t: State)
    requires |t.echoes| in t.unhealthyAt
    ensures !Cleared(t)
  {
    assert !PlainMatch(t.echoes, |t.echoes|, |t.echoes|);
  }

  lemma JudgedArmed(s: State, padded: bool, matched: bool)
    requires PathMTU.Inv(s.prober) && Tells(s) && ArmedInv(s)
    ensures var t := Judged(s, padded, matched);
      !t.prober.manual ==> (t.prober.armed <==> Cleared(t))
  {
    var t := Judged(s, padded, matched);
    if t.unhealthyAt == s.unhealthyAt {
      ClearedNext(s, t, Echo(padded, matched));
    } else {
      UnclearedNow(t);
    }
  }

  /** What leaves the verdicts and the arming alone. */
  predicate SameArming(s: State, t: State) {
    && SameVerdicts(s, t) && t.requestID >= s.requestID
    && t.prober.manual == s.prober.manual && t.prober.armed == s.prober.armed
  }

  lemma ArmingStays(s: State, t: State)
    requires SameArming(s, t)
    ensures Cleared(t) <==> Cleared(s)
    ensures ArmedInv(s) ==> ArmedInv(t)
    ensures Tells(s) ==> Tells(t)
  {
  }

  lemma VerdictArmed(s: State, padded: bool, matched: bool)
    requires PathMTU.Inv(s.prober) && Tells(s) && ArmedInv(s)
    ensures ArmedInv(Judged(s, padded, matched).(requestID := s.requestID + 1))
  {
    JudgedArmed(s, padded, matched);
    var t := Judged(s, padded, matched);
    assert |t.echoes| == |s.echoes| + 1;
    assert Cleared(t.(requestID := s.requestID + 1)) <==> Cleared(t);
  }

  lemma FinishedArmed(s: State, probing: bool, target: int, o: Outcomes)
    requires PathMTU.Inv(s.prober) && Tells(s) && ArmedInv(s)
    ensures ArmedInv(Finished(s, probing, target, o))
  {
    var matched := o.writeOk && o.reply == Answered;
    var settled := if probing then Settled(s, target, matched) else s;
    OperationsKeepInv(s.prober, target, matched);
    ArmingStays(s, settled);
    if o.writeOk && o.reply != ContextDone {
      VerdictArmed(settled, probing, matched);
    } else {
      ArmingStays(s, Finished(s, probing, target, o));
    }
  }

  lemma RoundArmed(s: State, o: Outcomes)
    requires PingInv(s) && Tells(s) && ArmedInv(s)
    ensures ArmedInv(Round(s, o))
  {
    if ProbeDue(s) {
      var raised := Raised(s, o.raiseOk);
      RaisedKeeps(s, o.raiseOk);
      ArmingStays(s, raised);
      FinishedArmed(raised, o.raiseOk, Target(s), o);
    } else {
      FinishedArmed(s, false, 0, o);
    }
  }

  lemma {:induction false} RoundsArmed(s: State, os: seq<Outcomes>)
    requires PingInv(s) && Tells(s) && ArmedInv(s)
    ensures ArmedInv(AfterRounds(s, os))
  {
    if os != [] {
      var before := os[..|os| - 1];
      RoundsArmed(s, before);
      RoundsKeepInv(s, before);
      RoundsTell(s, before);
      RoundArmed(AfterRounds(s, before), os[|os| - 1]);
    }
  }

  /** In every run of an automatic prober a probe is due at a head exactly if some echo was matched, the
      search is on with a milestone left, and every unhealthy event has been followed by a plain
      match. */
  lemma ProbeDueExactly(d: Discovery, outer: Outer, os: seq<Outcomes>)
    ensures var s := AfterRounds(Start(0, d, outer), os);
      ProbeDue(s) <==>
        && true in Matches(s.echoes)
        && s.prober.phase == Searching && s.prober.currentIndex < |s.prober.milestones|
        && forall n | n in s.unhealthyAt :: PlainMatch(s.echoes, n, |s.echoes|)
  {
    var s0 := Start(0, d, outer);
    var s := AfterRounds(s0, os);
    StartInv(0, d, outer);
    RoundsKeepInv(s0, os);
    RoundsTell(s0, os);
    RoundsArmed(s0, os);
    CountedMeaning(Matches(s.echoes));
    assert true in Matches(s.echoes) ==> |s.echoes| > 0;
  }

  /** Requests are numbered on from round to round, so that no two of them share an id. */
  lemma {:induction false} RoundsAreNumbered(s: State, os: seq<Outcomes>)
    requires AllContinue(s, os)
    ensures AfterRounds(s, os).requestID == s.requestID + |os|
  {
    if os != [] {
      NeverStraysBefore(s, os);
      RoundsAreNumbered(s, os[..|os| - 1]);
      assert ContinuesAt(s, os, |os| - 1);
    }
  }

  /** Automatic mode searches every default milestone within the discovered ceiling. */
  lemma StartLadder(d: Discovery, outer: Outer, i: nat)
    requires i < |DEFAULT_MILESTONES|
    ensures var p := Start(0, d, outer).prober;
      && (i < |p.milestones| <==> DEFAULT_MILESTONES[i] <= Ceiling(d, outer))
      && (i < |p.milestones| ==> p.milestones[i] == DEFAULT_MILESTONES[i])
      && p.confirmed == 1280 && p.currentIndex == 0 && Start(0, d, outer).stackMTU == 1280
  {
    NewProberExactly(BASE_MTU, Ceiling(d, outer), i);
    NewProberInv(BASE_MTU, Ceiling(d, outer), 0);
  }

  // ---------------------------------------------------------------- rounds that get no verdict

  /** A probe that cannot be raised or written counts as failed, without a verdict of its own; after a
      failed write the stack is back at the confirmed MTU and the loop goes on. */
  lemma ProbeNotSent(s: State, o: Outcomes)
    requires PathMTU.Inv(s.prober) && ProbeDue(s) && !o.writeOk
    ensures var t := Round(s, o);
      && t.prober.failed == s.prober.failed + 1 && t.prober.confirmed == s.prober.confirmed
      && t.prober.currentIndex == s.prober.currentIndex && t.echoes == s.echoes && t.health == s.health
      && (o.raiseOk ==> t.stackMTU == s.prober.confirmed && t.requestID == s.requestID + 1 && Continues(s, o))
      && (!o.raiseOk ==> t.stackMTU == Target(s) && !Continues(s, o))
  {
  }

  /** An ordinary request that cannot be written, or a wait cut short by the context, ends the loop and
      leaves prober and counter as they were. */
  lemma LoopEnds(s: State, o: Outcomes)
    requires !ProbeDue(s) && (!o.writeOk || o.reply == ContextDone)
    ensures Round(s, o) == s && !Continues(s, o)
  {
  }

  lemma ProbeCutShort(s: State, o: Outcomes)
    requires ProbeDue(s) && o.raiseOk && o.writeOk && o.reply == ContextDone
    ensures var t := Round(s, o);
      t.prober == s.prober && t.echoes == s.echoes && t.health == s.health && !Continues(s, o)
  {
  }

  // ---------------------------------------------------------------- the search on a given path

  /** The path carries packets up to `size`: all calls succeed, and an echo is answered unless it is
      padded beyond that. */
  predicate Carries(s: State, o: Outcomes, size: int) {
    && o.raiseOk && o.writeOk
    && o.reply == if ProbeDue(s) && Target(s) > size then Missed else Answered
  }

  predicate CarriesAt(s: State, os: seq<Outcomes>, size: int, i: nat)
    requires i < |os|
  {
    Carries(AfterRounds(s, os[..i]), os[i], size)
  }

  predicate CarriesAll(s: State, os: seq<Outcomes>, size: int) {
    forall i | 0 <= i < |os| :: CarriesAt(s, os, size, i)
  }

  /** How far the search has come on such a path: what is confirmed fits, and what has failed does
      not. */
  predicate OnTheWay(s: State, size: int) {
    var p := s.prober;
    && !p.manual && p.armed && s.health.ready && s.requestID > 0 && s.stackMTU == p.confirmed
    && s.health.failures <= p.failed <= 2 && p.currentIndex <= |p.milestones|
    && p.confirmed == (if p.currentIndex == 0 then BASE_MTU else p.milestones[p.currentIndex - 1])
    && (forall i | 0 <= i < p.currentIndex :: p.milestones[i] <= size)
    && (p.failed > 0 ==> p.currentIndex < |p.milestones| && p.milestones[p.currentIndex] > size)
    && (p.phase == SearchComplete <==> p.failed == MAX_PROBES || p.currentIndex == |p.milestones|)
  }

    lemma FirstRound(d: Discovery, outer: Outer, o: Outcomes, size: int)
    requires Carries(Start(0, d, outer), o, size)
    ensures var s := Round(Start(0, d, outer), o); PathMTU.Inv(s.prober) && OnTheWay(s, size)
  {
    var s0 := Start(0, d, outer);
    StartInv(0, d, outer);
    NewProberInv(BASE_MTU, Ceiling(d, outer), 0);
    assert Round(s0, o) == Judged(s0, false, true).(requestID := 1);
  }

  /** A probe within the path is confirmed. */
  lemma FittingRound(s: State, o: Outcomes, size: int)
    requires PathMTU.Inv(s.prober) && OnTheWay(s, size) && Carries(s, o, size) && ProbeDue(s) && Target(s) <= size
    ensures var t := Round(s, o);
      PathMTU.Inv(t.prober) && OnTheWay(t, size) && ResultsLeft(t.prober) < ResultsLeft(s.prober)
  {
    var target := Target(s);
    OperationsKeepInv(s.prober, target, true);
    var settled := Settled(Raised(s, true), target, true);
    assert settled.prober == AfterResult(s.prober, target, true);
    var t := Round(s, o);
    assert t == Judged(settled, true, true).(requestID := s.requestID + 1);
    assert t.prober == settled.prober && t.stackMTU == settled.stackMTU && t.health == Health(true, 0);
  }

  /** One beyond it fails, twice at most. */
  lemma FailingRound(s: State, o: Outcomes, size: int)
    requires PathMTU.Inv(s.prober) && OnTheWay(s, size) && Carries(s, o, size) && ProbeDue(s) && Target(s) > size
    ensures var t := Round(s, o);
      PathMTU.Inv(t.prober) && OnTheWay(t, size) && ResultsLeft(t.prober) < ResultsLeft(s.prober)
  {
    var target := Target(s);
    OperationsKeepInv(s.prober, target, false);
    var settled := Settled(Raised(s, true), target, false);
    assert settled.prober == AfterResult(s.prober, target, false);
    var t := Round(s, o);
    MissJudged(settled, true);
    assert t == Judged(settled, true, false).(requestID := s.requestID + 1);
  }

  /** Any other round changes nothing of it. */
  lemma PlainRound(s: State, o: Outcomes, size: int)
    requires PathMTU.Inv(s.prober) && OnTheWay(s, size) && Carries(s, o, size) && !ProbeDue(s)
    ensures var t := Round(s, o); t.prober == s.prober && OnTheWay(t, size)
  {
    var t := Round(s, o);
    assert t == Judged(s, false, true).(requestID := s.requestID + 1);
  }

  /** How many results a search can take after its first round. */
  function Budget(d: Discovery, outer: Outer): nat { 2 * |Start(0, d, outer).prober.milestones| }

  lemma CarriesBefore(s: State, os: seq<Outcomes>, size: int)
    requires os != [] && CarriesAll(s, os, size)
    ensures CarriesAll(s, os[..|os| - 1], size)
    ensures Carries(AfterRounds(s, os[..|os| - 1]), os[|os| - 1], size)
  {
    var before := os[..|os| - 1];
    forall i | 0 <= i < |before| ensures CarriesAt(s, before, size, i) {
      assert before[..i] == os[..i] && CarriesAt(s, os, size, i);
    }
    assert CarriesAt(s, os, size, |os| - 1);
  }

  lemma {:induction false} SearchGoesOn(d: Discovery, outer: Outer, os: seq<Outcomes>, size: int)
    requires os != [] && CarriesAll(Start(0, d, outer), os, size)
    ensures var s := AfterRounds(Start(0, d, outer), os);
      && PathMTU.Inv(s.prober) && OnTheWay(s, size)
      && s.prober.milestones == Start(0, d, outer).prober.milestones
      && (s.prober.phase == Searching ==> ResultsLeft(s.prober) + |os| <= Budget(d, outer) + 1)
  {
    var s0 := Start(0, d, outer);
    var before, last := os[..|os| - 1], os[|os| - 1];
    CarriesBefore(s0, os, size);
    RoundKeepsLadder(AfterRounds(s0, before), last);
    if before == [] {
      FirstRound(d, outer, last, size);
    } else {
      SearchGoesOn(d, outer, before, size);
      var s := AfterRounds(s0, before);
      if !ProbeDue(s) {
        PlainRound(s, last, size);
      } else if Target(s) <= size {
        FittingRound(s, last, size);
      } else {
        FailingRound(s, last, size);
      }
    }
  }

  /** The largest milestone that fits, or the floor. */
  predicate IsBest(best: int, milestones: seq<int>, size: int) {
    && (best == BASE_MTU || (best in milestones && best <= size))
    && forall m | m in milestones && m <= size :: m <= best
  }

  /** On a path that carries packets up to `size`, the search is over after two rounds a milestone and
      one, and the stack is at the largest milestone that fits the path. */
  lemma PathIsFound(d: Discovery, outer: Outer, os: seq<Outcomes>, size: int)
    requires CarriesAll(Start(0, d, outer), os, size) && |os| > Budget(d, outer) + 1
    ensures var s := AfterRounds(Start(0, d, outer), os);
      && s.prober.phase == SearchComplete && s.stackMTU == s.prober.confirmed
      && IsBest(s.stackMTU, s.prober.milestones, size)
  {
    SearchGoesOn(d, outer, os, size);
    var s := AfterRounds(Start(0, d, outer), os);
    assert ResultsLeft(s.prober) >= 0;
    CompleteIsBest(s, size);
  }

  lemma CompleteIsBest(s: State, size: int)
    requires PathMTU.Inv(s.prober) && OnTheWay(s, size) && s.prober.phase == SearchComplete
    ensures IsBest(s.prober.confirmed, s.prober.milestones, size)
  {
    var p := s.prober;
    forall m | m in p.milestones && m <= size ensures m <= p.confirmed {
      var i :| 0 <= i < |p.milestones| && p.milestones[i] == m;
      Ladder(p, i);
    }
  }

  /** Milestones rise, so one that fits lies below the first that does not. */
  lemma Ladder(p: Prober, i: nat)
    requires PathMTU.Inv(p) && i < |p.milestones|
    ensures forall j | 0 <= j < |p.milestones| :: (i < j ==> p.milestones[i] < p.milestones[j]) && (j < i ==> p.milestones[j] < p.milestones[i])
  {
    forall j | 0 <= j < |p.milestones| ensures (i < j ==> p.milestones[i] < p.milestones[j]) && (j < i ==> p.milestones[j] < p.milestones[i]) {
      Rising(i);
      Rising(j);
      assert p.milestones[i] == DEFAULT_MILESTONES[i] && p.milestones[j] == DEFAULT_MILESTONES[j];
    }
  }
}
