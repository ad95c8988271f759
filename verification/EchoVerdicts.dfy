/** What the health counter's events mean: each is a statement about all the verdicts so far, and a
    run of the echo loop raises an unhealthy event at exactly the verdicts that deserve one. */
module EchoVerdicts {
  import opened Pinger
  import opened PathMTU
  import opened TunnelMTU

  /** The counter after these verdicts. */
  function Counted(ms: seq<bool>): Health {
    if ms == [] then Health(false, 0) else Observed(Counted(ms[..|ms| - 1]), ms[|ms| - 1]).0
  }

  /** The event the last of these verdicts raises. */
  function EventOf(ms: seq<bool>): HealthEvent
    requires ms != []
  {
    Observed(Counted(ms[..|ms| - 1]), ms[|ms| - 1]).1
  }

  /** The last `k` verdicts are the misses since the last match. */
  predicate MissesSinceMatch(ms: seq<bool>, k: nat) {
    && k <= |ms|
    && (forall i | |ms| - k <= i < |ms| :: !ms[i])
    && (k < |ms| ==> ms[|ms| - k - 1])
  }

  /** How many of the last verdicts are misses. */
  function Streak(ms: seq<bool>): (k: nat)
    ensures MissesSinceMatch(ms, k)
  {
    if ms == [] || ms[|ms| - 1] then 0 else Streak(ms[..|ms| - 1]) + 1
  }

  lemma NextOfTwelve(k: nat)
    ensures (k + 1) % 12 == if k % 12 == 11 then 0 else k % 12 + 1
  {
  }

  /** The counter is ready once any echo was matched, and then counts the misses since the last
      match modulo twelve. */
  lemma {:induction false} CountedMeaning(ms: seq<bool>)
    ensures Counted(ms).ready <==> true in ms
    ensures Counted(ms).failures == if true in ms then Streak(ms) % 12 else 0
  {
    if ms != [] {
      var front, last := ms[..|ms| - 1], ms[|ms| - 1];
      assert ms == front + [last];
      CountedMeaning(front);
      NextOfTwelve(Streak(front));
    }
  }

  /** A match is always reported, a miss before any match as a failed start, and a miss after one
      exactly when it completes another twelve in a row. */
  lemma EventMeaning(ms: seq<bool>)
    requires ms != []
    ensures EventOf(ms) == Healthy <==> ms[|ms| - 1]
    ensures EventOf(ms) == StartupFailed <==> true !in ms
    ensures EventOf(ms) == Unhealthy <==> true in ms && Streak(ms) > 0 && Streak(ms) % 12 == 0
  {
    var front, last := ms[..|ms| - 1], ms[|ms| - 1];
    assert ms == front + [last];
    CountedMeaning(front);
    NextOfTwelve(Streak(front));
  }

  // ---------------------------------------------------------------- in a run of the echo loop

  function Matches(echoes: seq<Echo>): seq<bool> {
    seq(|echoes|, i requires 0 <= i < |echoes| => echoes[i].matched)
  }

  ghost predicate RaisesAt(echoes: seq<Echo>, n: nat) {
    0 < n <= |echoes| && EventOf(Matches(echoes[..n])) == Unhealthy
  }

  /** The counter is where the verdicts put it, and the events raised are those due. */
  ghost predicate Tells(s: State) {
    && s.health == Counted(Matches(s.echoes))
    && forall n: nat :: n in s.unhealthyAt <==> RaisesAt(s.echoes, n)
  }

  lemma JudgedTells(s: State, padded: bool, matched: bool)
    requires Tells(s)
    ensures Tells(Judged(s, padded, matched))
  {
    var s' := Judged(s, padded, matched);
    var ms := Matches(s'.echoes);
    assert ms[..|ms| - 1] == Matches(s.echoes);
    assert s'.echoes[..|s'.echoes|] == s'.echoes;
    forall n: nat ensures n in s'.unhealthyAt <==> RaisesAt(s'.echoes, n) {
      if n <= |s.echoes| {
        assert s'.echoes[..n] == s.echoes[..n];
        assert n in s.unhealthyAt <==> RaisesAt(s.echoes, n);
      } else {
        assert n !in s.unhealthyAt;
      }
    }
  }

  /** Only a verdict touches the counter. */
  predicate SameVerdicts(s: State, t: State) {
    t.health == s.health && t.echoes == s.echoes && t.unhealthyAt == s.unhealthyAt
  }

  lemma FinishedTells(s: State, probing: bool, target: int, o: Outcomes)
    requires Tells(s)
    ensures Tells(Finished(s, probing, target, o))
  {
    if o.writeOk && o.reply != ContextDone {
      var settled := if probing then Settled(s, target, o.reply == Answered) else s;
      assert SameVerdicts(s, settled);
      JudgedTells(settled, probing, o.reply == Answered);
    } else {
      assert SameVerdicts(s, Finished(s, probing, target, o));
    }
  }

  lemma RoundTells(s: State, o: Outcomes)
    requires Tells(s)
    ensures Tells(Round(s, o))
  {
    if ProbeDue(s) {
      assert SameVerdicts(s, Raised(s, o.raiseOk));
      FinishedTells(Raised(s, o.raiseOk), o.raiseOk, Target(s), o);
    } else {
      FinishedTells(s, false, 0, o);
    }
  }

  lemma {:induction false} RoundsTell(s: State, os: seq<Outcomes>)
    requires Tells(s)
    ensures Tells(AfterRounds(s, os))
  {
    if os != [] {
      RoundsTell(s, os[..|os| - 1]);
      RoundTells(AfterRounds(s, os[..|os| - 1]), os[|os| - 1]);
    }
  }

  /** In every run an unhealthy event comes with exactly the verdicts that complete twelve misses in
      a row, or a multiple of it, after some match: no loss goes unreported and no event is early. */
  lemma UnhealthyExactlyWhen(manualMTU: nat, d: Discovery, outer: Outer, os: seq<Outcomes>, n: nat)
    ensures var s := AfterRounds(Start(manualMTU, d, outer), os);
      n in s.unhealthyAt <==>
        && 0 < n <= |s.echoes|
        && true in Matches(s.echoes[..n])
        && Streak(Matches(s.echoes[..n])) > 0
        && Streak(Matches(s.echoes[..n])) % 12 == 0
  {
    var s0 := Start(manualMTU, d, outer);
    var s := AfterRounds(s0, os);
    RoundsTell(s0, os);
    assert n in s.unhealthyAt <==> RaisesAt(s.echoes, n);
    if 0 < n <= |s.echoes| {
      EventMeaning(Matches(s.echoes[..n]));
    }
  }
}
