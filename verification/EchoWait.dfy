/** The timing of `waitForEchoResponse` and its two wrappers in udpecho.go: what it arms, what it
    accepts and how often it resends, for every sequence of read outcomes. Times are in
    milliseconds on a monotone clock. */
module EchoWait {
  import opened Wrappers

  const STEADY_STATE_DEADLINE: nat := 3000
  const STARTUP_RETRY_INTERVAL: nat := 3000
  const STARTUP_CEILING: nat := 95_000

  /** How one blocking read ends. A packet carries the request id it parses to, if any. */
  datatype Outcome =
    | Packet(id: Option<string>)
    | TimedOut(resendOk: bool)
    | Broken
    | Cancelled

  /** `delay` is the time the read takes, for a time-out beyond its deadline. */
  datatype Read = Read(outcome: Outcome, delay: nat)

  datatype Result = Matched | Failed | Waiting

  datatype Wait = Wait(started: nat, timeout: nat, retryInterval: nat, wantID: string, isStartup: bool, resends: bool)

  function Ceiling(w: Wait): nat { w.started + w.timeout }

  function Deadline(w: Wait, now: nat): nat {
    if now + w.retryInterval > Ceiling(w) then Ceiling(w) else now + w.retryInterval
  }

  /** When the loop is back at its top after the first `j` reads. */
  function Clock(w: Wait, env: seq<Read>, j: nat): nat
    requires j <= |env|
  {
    if j == 0 then w.started
    else
      var now := Clock(w, env, j - 1);
      (if env[j - 1].outcome.TimedOut? then Deadline(w, now) else now) + env[j - 1].delay
  }

  /** Stale and malformed packets, and start-up time-outs, leave the wait going. */
  predicate KeepsWaiting(w: Wait, o: Outcome) {
    match o
    case Packet(id) => id != Some(w.wantID)
    case TimedOut(resendOk) => w.isStartup && (w.resends ==> resendOk)
    case _ => false
  }

  /** Read `i` was begun before the ceiling and leaves the wait going. */
  predicate PassesOn(w: Wait, env: seq<Read>, i: nat)
    requires i < |env|
  {
    KeepsWaiting(w, env[i].outcome) && Clock(w, env, i) < Ceiling(w)
  }

  ghost predicate WaitedThrough(w: Wait, env: seq<Read>, j: nat)
    requires j <= |env|
  {
    forall i | 0 <= i < j :: PassesOn(w, env, i)
  }

  /** Read number `j` is the wanted answer and was begun before the ceiling. */
  ghost predicate AnsweredAt(w: Wait, env: seq<Read>, j: nat)
    requires j < |env|
  {
    WaitedThrough(w, env, j) && Clock(w, env, j) < Ceiling(w) && env[j].outcome == Packet(Some(w.wantID))
  }

  /** The requests that are sent again while the first `j` reads end. */
  function Resent(w: Wait, env: seq<Read>, j: nat): nat
    requires j <= |env|
  {
    if j == 0 then 0
    else Resent(w, env, j - 1)
         + if w.isStartup && w.resends && env[j - 1].outcome.TimedOut? then 1 else 0
  }

  /** The timeout divided by the retry interval, rounded up. */
  function MaxResends(w: Wait): nat
    requires w.retryInterval > 0
  {
    (w.timeout + w.retryInterval - 1) / w.retryInterval
  }

  /** The deadline armed for read `i` is one retry interval away, or the ceiling if that comes first;
      so it is in the future and not past the ceiling. */
  predicate ArmedRight(w: Wait, env: seq<Read>, i: nat, deadline: nat)
    requires i <= |env|
  {
    && Clock(w, env, i) < deadline <= w.started + w.timeout && deadline <= Clock(w, env, i) + w.retryInterval
    && (deadline == w.started + w.timeout || deadline == Clock(w, env, i) + w.retryInterval)
  }

  method WaitForEchoResponse(w: Wait, env: seq<Read>)
    returns (res: Result, used: nat, resent: nat, armed: seq<nat>)
    requires w.retryInterval > 0
    ensures used <= |env| && |armed| == used
    ensures forall i | 0 <= i < used :: ArmedRight(w, env, i, armed[i])
    ensures res == Matched <==> exists j | 0 <= j < |env| :: AnsweredAt(w, env, j)
    ensures res == Matched ==> used > 0 && AnsweredAt(w, env, used - 1)
    ensures res == Waiting <==> WaitedThrough(w, env, |env|) && Clock(w, env, |env|) < Ceiling(w)
    ensures res == Failed ==> GaveUp(w, env, used)
    ensures resent == Resent(w, env, used)
    ensures resent <= MaxResends(w)
    ensures !w.isStartup ==> resent == 0
  {
    res, used, resent, armed := Waiting, 0, 0, [];
    var now := w.started;
    while true
      invariant used <= |env| && |armed| == used
      invariant res == Waiting && now == Clock(w, env, used)
      invariant WaitedThrough(w, env, used)
      invariant forall i | 0 <= i < used :: ArmedRight(w, env, i, armed[i])
      invariant resent == Resent(w, env, used)
      invariant resent <= MaxResends(w)
      decreases |env| - used
    {
      if now >= Ceiling(w) {
        res := Failed;
        break;
      }
      if used == |env| {
        break;
      }
      var deadline := Deadline(w, now);
      armed := armed + [deadline];
      var read := env[used];
      ResendBudget(w, env, used);
      used := used + 1;
      if read.outcome.Packet? {
        if read.outcome.id == Some(w.wantID) {
          res := Matched;
          break;
        }
        now := now + read.delay;
      } else if read.outcome.TimedOut? && w.isStartup {
        if w.resends {
          resent := resent + 1;
          if !read.outcome.resendOk {
            res := Failed;
            break;
          }
        }
        now := deadline + read.delay;
      } else {
        res := Failed;
        break;
      }
    }
    StopsHere(w, env, used, res);
    if !w.isStartup {
      SteadyStateNeverResends(w, env, used);
    }
  }

  /** The wait is at its ceiling after `used` reads, or the last of them broke it off. */
  ghost predicate GaveUp(w: Wait, env: seq<Read>, used: nat)
    requires used <= |env|
  {
    || (WaitedThrough(w, env, used) && Clock(w, env, used) >= Ceiling(w))
    || (used > 0 && WaitedThrough(w, env, used - 1) && Clock(w, env, used - 1) < Ceiling(w)
        && !PassesOn(w, env, used - 1) && !AnsweredAt(w, env, used - 1))
  }

  lemma StopsHere(w: Wait, env: seq<Read>, used: nat, res: Result)
    requires used <= |env|
    requires match res
             case Waiting => used == |env| && WaitedThrough(w, env, used) && Clock(w, env, used) < Ceiling(w)
             case Matched => used > 0 && AnsweredAt(w, env, used - 1)
             case Failed => GaveUp(w, env, used)
    ensures res == Matched <==> exists j | 0 <= j < |env| :: AnsweredAt(w, env, j)
    ensures res == Waiting <==> WaitedThrough(w, env, |env|) && Clock(w, env, |env|) < Ceiling(w)
  {
    match res
    case Waiting => NoAnswerBeyond(w, env, used);
    case Matched => assert !PassesOn(w, env, used - 1);
    case Failed =>
      if WaitedThrough(w, env, used) && Clock(w, env, used) >= Ceiling(w) {
        NoAnswerBeyond(w, env, used);
      } else {
        NoAnswerBeyond(w, env, used - 1);
      }
  }

  lemma {:induction false} SteadyStateNeverResends(w: Wait, env: seq<Read>, j: nat)
    requires j <= |env| && !w.isStartup
    ensures Resent(w, env, j) == 0
  {
    if j > 0 {
      SteadyStateNeverResends(w, env, j - 1);
    }
  }

  /** A wait that stops at read `j`, or at the ceiling before it, has no other answer. */
  lemma {:induction false} NoAnswerBeyond(w: Wait, env: seq<Read>, j: nat)
    requires j <= |env| && WaitedThrough(w, env, j)
    requires j < |env| ==> !PassesOn(w, env, j) && !AnsweredAt(w, env, j)
    ensures forall i | 0 <= i < |env| :: !AnsweredAt(w, env, i)
    ensures j < |env| ==> !WaitedThrough(w, env, |env|)
  {
    forall i | 0 <= i < |env| ensures !AnsweredAt(w, env, i) {
      if i < j {
        assert PassesOn(w, env, i);
      } else if i > j {
        assert !PassesOn(w, env, j);
      }
    }
  }

  /** Each time-out costs a whole retry interval, unless it is the ceiling's own. */
  lemma {:induction false} ResendsCostTime(w: Wait, env: seq<Read>, j: nat)
    requires j <= |env|
    ensures Clock(w, env, j) >= w.started
    ensures Clock(w, env, j) < Ceiling(w) ==> w.started + Resent(w, env, j) * w.retryInterval <= Clock(w, env, j)
  {
    if j > 0 {
      ResendsCostTime(w, env, j - 1);
      var k := Resent(w, env, j - 1);
      assert (k + 1) * w.retryInterval == k * w.retryInterval + w.retryInterval;
    }
  }

  lemma ResendBudget(w: Wait, env: seq<Read>, j: nat)
    requires j < |env| && Clock(w, env, j) < Ceiling(w) && w.retryInterval > 0
    ensures Resent(w, env, j) + 1 <= MaxResends(w)
  {
    ResendsCostTime(w, env, j);
    var k, r := Resent(w, env, j), w.retryInterval;
    assert k * r < w.timeout;
    assert (k + 1) * r <= w.timeout + r - 1 by {
      assert (k + 1) * r == k * r + r;
    }
    DivideAtLeast(w.timeout + r - 1, r, k + 1);
  }

  lemma MulMonotone(x: nat, y: nat, r: nat)
    requires x <= y
    ensures x * r <= y * r
  {
  }

  lemma DivideAtLeast(a: nat, r: nat, q: nat)
    requires r > 0 && q * r <= a
    ensures q <= a / r
  {
    assert a == (a / r) * r + a % r;
    if a / r < q {
      MulMonotone(a / r + 1, q, r);
    }
  }

  /** While packets come in, whatever they hold, nothing is sent again. */
  lemma {:induction false} PacketsResendNothing(w: Wait, env: seq<Read>, i: nat, j: nat)
    requires i <= j <= |env| && forall k | i <= k < j :: env[k].outcome.Packet?
    ensures Resent(w, env, j) == Resent(w, env, i)
  {
    if i < j {
      PacketsResendNothing(w, env, i, j - 1);
    }
  }

  /** Once the clock has reached the ceiling nothing is accepted any more: no run of stale or
      malformed packets buys the wait more time. */
  lemma {:induction false} StalePacketsDoNotExtend(w: Wait, env: seq<Read>, j: nat)
    requires j <= |env| && Clock(w, env, j) >= Ceiling(w)
    ensures forall i | j <= i < |env| :: !AnsweredAt(w, env, i)
    ensures !(WaitedThrough(w, env, |env|) && Clock(w, env, |env|) < Ceiling(w))
  {
    if j < |env| {
      assert !PassesOn(w, env, j);
    }
  }

  // ---------------------------------------------------------------- on the reads themselves

  /** Were the clock past the ceiling at a read it would be so at every later one. */
  lemma {:induction false} StaysPast(w: Wait, env: seq<Read>, i: nat, j: nat)
    requires i <= j <= |env| && Clock(w, env, i) >= Ceiling(w)
    ensures Clock(w, env, j) >= Ceiling(w)
    decreases j - i
  {
    if i < j {
      StaysPast(w, env, i, j - 1);
    }
  }

  /** In start-up mode read `j` is the answer exactly if it is begun before the ceiling and brings the
      wanted id, and every read before it was a packet with another id or none, or a time-out after
      which the request could be sent again. */
  lemma StartupAnsweredExactly(w: Wait, env: seq<Read>, j: nat)
    requires w.isStartup && w.resends && j < |env|
    ensures AnsweredAt(w, env, j) <==>
      && Clock(w, env, j) < w.started + w.timeout && env[j].outcome == Packet(Some(w.wantID))
      && forall i | 0 <= i < j ::
           || (env[i].outcome.Packet? && env[i].outcome.id != Some(w.wantID))
           || (env[i].outcome.TimedOut? && env[i].outcome.resendOk)
  {
    if Clock(w, env, j) < Ceiling(w) {
      forall i | 0 <= i < j ensures Clock(w, env, i) < Ceiling(w) {
        if Clock(w, env, i) >= Ceiling(w) {
          StaysPast(w, env, i, j);
        }
      }
      assert WaitedThrough(w, env, j) <==> forall i | 0 <= i < j :: KeepsWaiting(w, env[i].outcome) by {
        assert forall i | 0 <= i < j :: PassesOn(w, env, i) <==> KeepsWaiting(w, env[i].outcome);
      }
    }
  }

  /** In the steady state no time-out may come before it. */
  lemma SteadyAnsweredExactly(w: Wait, env: seq<Read>, j: nat)
    requires !w.isStartup && j < |env|
    ensures AnsweredAt(w, env, j) <==>
      && Clock(w, env, j) < w.started + w.timeout && env[j].outcome == Packet(Some(w.wantID))
      && forall i | 0 <= i < j :: env[i].outcome.Packet? && env[i].outcome.id != Some(w.wantID)
  {
    if Clock(w, env, j) < Ceiling(w) {
      forall i | 0 <= i < j ensures Clock(w, env, i) < Ceiling(w) {
        if Clock(w, env, i) >= Ceiling(w) {
          StaysPast(w, env, i, j);
        }
      }
      assert WaitedThrough(w, env, j) <==> forall i | 0 <= i < j :: KeepsWaiting(w, env[i].outcome) by {
        assert forall i | 0 <= i < j :: PassesOn(w, env, i) <==> KeepsWaiting(w, env[i].outcome);
      }
    }
  }

  /** A server that says nothing, to which every request can be sent again. */
  predicate Silent(env: seq<Read>) {
    forall i | 0 <= i < |env| :: env[i] == Read(TimedOut(true), 0)
  }

  /** Against it the clock goes on by whole intervals up to the ceiling, with a resend each. */
  lemma {:induction false} SilentClock(w: Wait, env: seq<Read>, j: nat)
    requires w.isStartup && w.resends && Silent(env) && j <= |env|
    ensures Clock(w, env, j) == if j * w.retryInterval < w.timeout then w.started + j * w.retryInterval else Ceiling(w)
    ensures Resent(w, env, j) == j
  {
    if j > 0 {
      SilentClock(w, env, j - 1);
      assert env[j - 1].outcome.TimedOut?;
      assert j * w.retryInterval == (j - 1) * w.retryInterval + w.retryInterval;
    }
  }

  lemma RoundedUp(w: Wait, j: nat)
    requires w.retryInterval > 0
    ensures j * w.retryInterval < w.timeout <==> j < MaxResends(w)
  {
    var r, n := w.retryInterval, MaxResends(w);
    assert n * r <= w.timeout + r - 1 < n * r + r;
    if j < n {
      MulMonotone(j, n - 1, r);
      assert (n - 1) * r == n * r - r;
    } else {
      MulMonotone(n, j, r);
    }
  }

  /** The bound is met: start-up against a silent server gives up after exactly that many resends. */
  lemma SilenceTakesAllResends(w: Wait, env: seq<Read>, used: nat)
    requires w.isStartup && w.resends && w.retryInterval > 0 && Silent(env) && used <= |env| && GaveUp(w, env, used)
    ensures used == MaxResends(w) == Resent(w, env, used) && Clock(w, env, used) == w.started + w.timeout
  {
    SilentTurn(w, env, used);
    if used > 0 {
      SilentTurn(w, env, used - 1);
      assert env[used - 1].outcome == TimedOut(true);
    }
  }

  lemma SilentTurn(w: Wait, env: seq<Read>, j: nat)
    requires w.isStartup && w.resends && w.retryInterval > 0 && Silent(env) && j <= |env|
    ensures Resent(w, env, j) == j
    ensures Clock(w, env, j) < Ceiling(w) <==> j < MaxResends(w)
    ensures Clock(w, env, j) <= Ceiling(w)
    ensures j < |env| ==> (PassesOn(w, env, j) <==> j < MaxResends(w))
  {
    SilentClock(w, env, j);
    RoundedUp(w, j);
  }

  method WaitForSteadyStateResponse(started: nat, wantID: string, env: seq<Read>) returns (matched: bool, waiting: bool, resent: nat)
    ensures var w := Wait(started, STEADY_STATE_DEADLINE, STEADY_STATE_DEADLINE, wantID, false, false);
      && (matched <==> exists j | 0 <= j < |env| ::
            && Clock(w, env, j) < started + STEADY_STATE_DEADLINE && env[j].outcome == Packet(Some(wantID))
            && forall i | 0 <= i < j :: env[i].outcome.Packet? && env[i].outcome.id != Some(wantID))
      && (waiting <==> WaitedThrough(w, env, |env|) && Clock(w, env, |env|) < Ceiling(w))
    ensures resent == 0
  {
    var w := Wait(started, STEADY_STATE_DEADLINE, STEADY_STATE_DEADLINE, wantID, false, false);
    var res, used, n, armed := WaitForEchoResponse(w, env);
    forall j | 0 <= j < |env| {
      SteadyAnsweredExactly(w, env, j);
    }
    matched, waiting, resent := res == Matched, res == Waiting, n;
  }

  /** `began` is when request 0 was built, `now` when the wait starts. */
  method WaitForStartupResponse(began: nat, now: nat, wantID: string, env: seq<Read>) returns (matched: bool, waiting: bool, resent: nat)
    requires began <= now
    ensures now - began >= STARTUP_CEILING ==> !matched && !waiting && resent == 0
    ensures now - began < STARTUP_CEILING ==>
      var w := Wait(now, STARTUP_CEILING - (now - began), STARTUP_RETRY_INTERVAL, wantID, true, true);
      && (matched <==> exists j | 0 <= j < |env| ::
            && Clock(w, env, j) < began + STARTUP_CEILING && env[j].outcome == Packet(Some(wantID))
            && forall i | 0 <= i < j ::
                 || (env[i].outcome.Packet? && env[i].outcome.id != Some(wantID))
                 || (env[i].outcome.TimedOut? && env[i].outcome.resendOk))
      && (waiting <==> WaitedThrough(w, env, |env|) && Clock(w, env, |env|) < Ceiling(w))
    ensures resent <= 32
  {
    if now - began >= STARTUP_CEILING {
      return false, false, 0;
    }
    var w := Wait(now, STARTUP_CEILING - (now - began), STARTUP_RETRY_INTERVAL, wantID, true, true);
    var res, used, n, armed := WaitForEchoResponse(w, env);
    forall j | 0 <= j < |env| {
      StartupAnsweredExactly(w, env, j);
    }
    matched, waiting, resent := res == Matched, res == Waiting, n;
  }
}
