/** The dial-time budget of internal/tunnet/tun.go: how `DialContext` shares what is left of its
    deadline among the addresses it has still to try. Times are in nanoseconds. */
module DialBudget {
  import opened Wrappers

  const SANE_MINIMUM: nat := 2_000_000_000

  function Slice(remaining: nat, addrsRemaining: nat): nat
    requires addrsRemaining > 0
  {
    var share := remaining / addrsRemaining;
    if share >= SANE_MINIMUM then share
    else if remaining < SANE_MINIMUM then remaining
    else SANE_MINIMUM
  }

  /** The deadline of one attempt; none is left once the whole deadline has passed. */
  function PartialDeadline(now: nat, deadline: nat, addrsRemaining: nat): Option<nat>
    requires addrsRemaining > 0
  {
    if deadline <= now then None else Some(now + Slice(deadline - now, addrsRemaining))
  }

  /** An attempt gets a time after now, within the deadline, of at least two seconds or all that
      is left, and never less than an equal share. */
  lemma SliceIsSane(now: nat, deadline: nat, addrsRemaining: nat)
    requires addrsRemaining > 0
    ensures deadline <= now <==> PartialDeadline(now, deadline, addrsRemaining) == None
    ensures deadline > now ==>
      var p := PartialDeadline(now, deadline, addrsRemaining).value;
      && now < p <= deadline
      && p - now >= (if deadline - now < SANE_MINIMUM then deadline - now else SANE_MINIMUM)
      && p - now >= (deadline - now) / addrsRemaining
  {
    if deadline > now {
      ShareWithin(deadline - now, addrsRemaining);
    }
  }

  lemma ShareWithin(r: nat, n: nat)
    requires n > 0
    ensures 0 <= r / n <= r
    ensures (r / n) * n <= r < (r / n + 1) * n
  {
    var q := r / n;
    assert r == q * n + r % n;
    assert q * n >= q by { MulAtLeast(q, n); }
    assert (q + 1) * n == q * n + n;
  }

  lemma MulAtLeast(q: nat, n: nat)
    requires n > 0
    ensures q * n >= q
  {
  }

  // ---------------------------------------------------------------- the address loop

  /** One address: whether the context is found cancelled when its turn comes, how long it is then
      until the loop looks at the clock, whether the context has noticed a deadline that has passed
      by then, whether the attempt heeds its own deadline, as TCP does, and what it would do with all
      the time in the world. */
  datatype Attempt = Attempt(cancelled: bool, lag: nat, noticed: bool, heeds: bool, takes: nat, ok: bool)

  datatype Result = Connected(index: nat) | AttemptFailed(index: nat) | TimedOut | Cancelled | MissingAddress

  predicate CutOff(now: nat, deadline: nat, left: nat, a: Attempt)
    requires left > 0 && now < deadline
  {
    a.heeds && now + a.takes >= PartialDeadline(now, deadline, left).value
  }

  /** An attempt that heeds its deadline is cut off, and fails, when that comes. */
  function EndOf(now: nat, deadline: nat, left: nat, a: Attempt): nat
    requires left > 0 && now < deadline
  {
    if CutOff(now, deadline, left, a) then PartialDeadline(now, deadline, left).value else now + a.takes
  }

  /** When the turn of address `i` comes, if every earlier attempt failed. */
  function Turn(start: nat, deadline: nat, attempts: seq<Attempt>, i: nat): nat
    requires i <= |attempts|
    decreases i, 0
  {
    if i == 0 then start
    else
      var now := Begins(start, deadline, attempts, i - 1);
      if now >= deadline then now else EndOf(now, deadline, |attempts| - (i - 1), attempts[i - 1])
  }

  /** When the attempt at it then begins. */
  function Begins(start: nat, deadline: nat, attempts: seq<Attempt>, i: nat): nat
    requires i < |attempts|
    decreases i, 1
  {
    Turn(start, deadline, attempts, i) + attempts[i].lag
  }

  /** Time is left for attempt `i`. */
  predicate Reached(start: nat, deadline: nat, attempts: seq<Attempt>, i: nat)
    requires i < |attempts|
  {
    Begins(start, deadline, attempts, i) < deadline
  }

  predicate Uncancelled(attempts: seq<Attempt>, i: nat)
    requires i <= |attempts|
  {
    forall j | 0 <= j < i :: !attempts[j].cancelled
  }

  predicate Succeeds(now: nat, deadline: nat, left: nat, a: Attempt)
    requires left > 0 && now < deadline
  {
    a.ok && !CutOff(now, deadline, left, a)
  }

  predicate Wins(start: nat, deadline: nat, attempts: seq<Attempt>, i: nat)
    requires i < |attempts|
  {
    && Reached(start, deadline, attempts, i)
    && Uncancelled(attempts, i + 1)
    && Succeeds(Begins(start, deadline, attempts, i), deadline, |attempts| - i, attempts[i])
  }

  predicate NoneWins(start: nat, deadline: nat, attempts: seq<Attempt>, n: nat)
    requires n <= |attempts|
  {
    forall i | 0 <= i < n :: !Wins(start, deadline, attempts, i)
  }

  predicate AllReached(start: nat, deadline: nat, attempts: seq<Attempt>, n: nat)
    requires n <= |attempts|
  {
    forall i | 0 <= i < n :: Reached(start, deadline, attempts, i)
  }

  /** How a dial ends that connects to none of the first `tried` addresses and goes no further. */
  function Failure(attempts: seq<Attempt>, tried: nat): Result
    requires tried <= |attempts|
  {
    if tried == |attempts| then if attempts == [] then MissingAddress else AttemptFailed(0)
    else if attempts[tried].cancelled then Cancelled
    else if attempts[tried].noticed || tried == 0 then TimedOut
    else AttemptFailed(0)
  }

  /** An address connects exactly if its turn comes in time and uncancelled, the attempt would succeed,
      and, where it heeds its deadline, takes less than its slice. */
  lemma WinsMeaning(start: nat, deadline: nat, attempts: seq<Attempt>, i: nat)
    requires i < |attempts|
    ensures Wins(start, deadline, attempts, i) <==>
      && Begins(start, deadline, attempts, i) < deadline && (forall j | 0 <= j <= i :: !attempts[j].cancelled)
      && attempts[i].ok
      && (attempts[i].heeds ==> attempts[i].takes < Slice(deadline - Begins(start, deadline, attempts, i), |attempts| - i))
  {
  }

  /** What is reported: nothing to dial; a context found cancelled; a deadline found passed, if the
      context has noticed or no attempt was made; and the first attempt's failure in all other cases. */
  lemma FailureMeaning(attempts: seq<Attempt>, tried: nat)
    requires tried <= |attempts|
    ensures var all, res := tried == |attempts|, Failure(attempts, tried);
      && (res == MissingAddress <==> attempts == [])
      && (res == Cancelled <==> !all && attempts[tried].cancelled)
      && (res == TimedOut <==> !all && !attempts[tried].cancelled && (attempts[tried].noticed || tried == 0))
      && (res == AttemptFailed(0) <==> tried > 0 && (all || (!attempts[tried].cancelled && !attempts[tried].noticed)))
  {
  }

  /** Connects to the first address that answers within its slice. Otherwise every address was
      tried, or the context ended, or the deadline left some untried: then, unless the context has
      noticed, the first address's failure is what is reported. */
  method DialContext(start: nat, deadline: nat, attempts: seq<Attempt>) returns (res: Result, tried: nat)
    ensures res.Connected? <==> exists i | 0 <= i < |attempts| :: Wins(start, deadline, attempts, i)
    ensures res.Connected? ==> res.index < |attempts| && Wins(start, deadline, attempts, res.index)
    ensures res.Connected? ==> tried == res.index + 1 && NoneWins(start, deadline, attempts, res.index)
    ensures tried <= |attempts|
    ensures TriedAll(start, deadline, attempts, tried)
    ensures !res.Connected? ==> res == Failure(attempts, tried)
    ensures !res.Connected? && tried < |attempts| ==>
              attempts[tried].cancelled || !Reached(start, deadline, attempts, tried)
  {
    var firstErr: Option<Result> := None;
    var now := start;
    tried := 0;
    while tried < |attempts|
      invariant tried <= |attempts|
      invariant now == Turn(start, deadline, attempts, tried)
      invariant firstErr == if tried == 0 then None else Some(AttemptFailed(0))
      invariant NoneWins(start, deadline, attempts, tried)
      invariant TriedAll(start, deadline, attempts, tried)
    {
      var a := attempts[tried];
      now := now + a.lag;
      if a.cancelled || (now >= deadline && a.noticed) {
        StopsHere(start, deadline, attempts, tried);
        return if a.cancelled then Cancelled else TimedOut, tried;
      }
      var p := PartialDeadline(now, deadline, |attempts| - tried);
      if p == None {
        if firstErr == None {
          firstErr := Some(TimedOut);
        }
        StopsHere(start, deadline, attempts, tried);
        break;
      }
      GoesOn(start, deadline, attempts, tried);
      var cutOff := a.heeds && now + a.takes >= p.value;
      tried := tried + 1;
      if a.ok && !cutOff {
        return Connected(tried - 1), tried;
      }
      now := if cutOff then p.value else now + a.takes;
      if firstErr == None {
        firstErr := Some(AttemptFailed(tried - 1));
      }
    }
    if firstErr == None {
      firstErr := Some(MissingAddress);
    }
    res := firstErr.value;
  }

  predicate TriedAll(start: nat, deadline: nat, attempts: seq<Attempt>, n: nat)
    requires n <= |attempts|
  {
    Uncancelled(attempts, n) && AllReached(start, deadline, attempts, n)
  }

  /** Address `i` gets its attempt; either that wins or the next address is up when it ends. */
  lemma GoesOn(start: nat, deadline: nat, attempts: seq<Attempt>, i: nat)
    requires i < |attempts| && TriedAll(start, deadline, attempts, i)
    requires !attempts[i].cancelled && Reached(start, deadline, attempts, i)
    ensures TriedAll(start, deadline, attempts, i + 1)
    ensures var now := Begins(start, deadline, attempts, i);
      && Turn(start, deadline, attempts, i + 1) == EndOf(now, deadline, |attempts| - i, attempts[i])
      && (Wins(start, deadline, attempts, i) <==> Succeeds(now, deadline, |attempts| - i, attempts[i]))
  {
    assert Uncancelled(attempts, i + 1);
  }

  lemma StopsHere(start: nat, deadline: nat, attempts: seq<Attempt>, i: nat)
    requires i < |attempts| && NoneWins(start, deadline, attempts, i)
    requires attempts[i].cancelled || !Reached(start, deadline, attempts, i)
    ensures NoneWins(start, deadline, attempts, |attempts|)
  {
    forall j | i <= j < |attempts| ensures !Wins(start, deadline, attempts, j) {
      if !Reached(start, deadline, attempts, i) {
        OutOfReach(start, deadline, attempts, i, j);
      }
    }
  }

  /** An address that is out of reach puts every later one out of reach. */
  lemma {:induction false} OutOfReach(start: nat, deadline: nat, attempts: seq<Attempt>, i: nat, j: nat)
    requires i <= j < |attempts| && !Reached(start, deadline, attempts, i)
    ensures !Reached(start, deadline, attempts, j)
  {
    if i < j {
      OutOfReach(start, deadline, attempts, i, j - 1);
      assert Turn(start, deadline, attempts, j) == Begins(start, deadline, attempts, j - 1);
    }
  }

  // ---------------------------------------------------------------- fairness

  /** Taking one slice leaves the others at least the share they started with. */
  lemma ShareIsKept(r: nat, n: nat, r': nat, q: nat)
    requires n > 1 && q * n <= r && q >= SANE_MINIMUM
    requires r' >= r - Slice(r, n)
    ensures r' >= q * (n - 1)
  {
    var s := r / n;
    ShareWithin(r, n);
    AtLeastQuotient(r, n, q);
    assert Slice(r, n) == s;
    assert s * n == s * (n - 1) + s;
    MulOrder(q, s, n - 1);
  }

  lemma MulOrder(q: int, s: int, n: nat)
    requires q <= s
    ensures q * n <= s * n
  {
  }

  lemma AtLeastQuotient(r: nat, n: nat, q: nat)
    requires n > 0 && q * n <= r
    ensures r / n >= q
  {
    ShareWithin(r, n);
    if r / n < q {
      MulOrder(r / n + 1, q, n);
    }
  }

  predicate Heeding(attempts: seq<Attempt>) {
    forall i | 0 <= i < |attempts| :: attempts[i].heeds
  }

  /** The time the loop itself has spent before the first `n` attempts. */
  function Lag(attempts: seq<Attempt>, n: nat): nat
    requires n <= |attempts|
  {
    if n == 0 then 0 else Lag(attempts, n - 1) + attempts[n - 1].lag
  }

  lemma {:induction false} LagGrows(attempts: seq<Attempt>, i: nat, j: nat)
    requires i <= j <= |attempts|
    ensures Lag(attempts, i) <= Lag(attempts, j)
  {
    if i < j {
      LagGrows(attempts, i, j - 1);
    }
  }

  lemma TurnKeepsShare(now: nat, deadline: nat, left: nat, a: Attempt, q: nat)
    requires left > 1 && q >= SANE_MINIMUM && now + q * left <= deadline && now < deadline && a.heeds
    ensures EndOf(now, deadline, left, a) + q * (left - 1) <= deadline
  {
    var end := EndOf(now, deadline, left, a);
    SliceIsSane(now, deadline, left);
    ShareIsKept(deadline - now, left, deadline - end, q);
  }

  /** The loop's own lag comes off one share. */
  lemma LagKeepsShare(turn: nat, deadline: nat, left: nat, q: nat, lag: nat)
    requires left > 0 && q >= lag && turn + q * left <= deadline
    ensures turn + lag + (q - lag) * left <= deadline
  {
    assert (q - lag) * left == q * left - lag * left;
    MulAtLeast(lag, left);
  }

  /** A share of at least two seconds an address stays available to each one still to come, less the
      lag so far. */
  lemma {:induction false} ShareStays(start: nat, deadline: nat, attempts: seq<Attempt>, q: nat, i: nat)
    requires i < |attempts| && Heeding(attempts)
    requires q >= SANE_MINIMUM + Lag(attempts, |attempts|) && start + q * |attempts| <= deadline
    ensures Lag(attempts, i + 1) <= Lag(attempts, |attempts|)
    ensures Begins(start, deadline, attempts, i) + (q - Lag(attempts, i + 1)) * (|attempts| - i) <= deadline
    ensures Reached(start, deadline, attempts, i)
  {
    var left := |attempts| - i;
    LagGrows(attempts, i + 1, |attempts|);
    var spare := q - Lag(attempts, i);
    if i > 0 {
      ShareStays(start, deadline, attempts, q, i - 1);
      var now := Begins(start, deadline, attempts, i - 1);
      assert |attempts| - (i - 1) == left + 1;
      TurnKeepsShare(now, deadline, left + 1, attempts[i - 1], spare);
    }
    LagKeepsShare(Turn(start, deadline, attempts, i), deadline, left, spare, attempts[i].lag);
    MulAtLeast(q - Lag(attempts, i + 1), left);
  }

  /** With two seconds or more for every address, besides the loop's own lag, each one's turn comes
      in time, whatever the others do with their slices, and its share is what it was at the start
      less the lag so far. */
  lemma EveryAddressGetsItsShare(start: nat, deadline: nat, attempts: seq<Attempt>, i: nat)
    requires i < |attempts| && Heeding(attempts) && start <= deadline
    requires (deadline - start) / |attempts| >= SANE_MINIMUM + Lag(attempts, |attempts|)
    ensures Reached(start, deadline, attempts, i)
    ensures (deadline - Begins(start, deadline, attempts, i)) / (|attempts| - i)
         >= (deadline - start) / |attempts| - Lag(attempts, i + 1)
  {
    var n := |attempts|;
    var q := (deadline - start) / n;
    ShareWithin(deadline - start, n);
    ShareStays(start, deadline, attempts, q, i);
    AtLeastQuotient(deadline - Begins(start, deadline, attempts, i), n - i, q - Lag(attempts, i + 1));
  }

  // ---------------------------------------------------------------- exactly when all are tried

  /** What one slice leaves. */
  function AfterSlice(t: int, left: nat): int
    requires left > 0
  {
    if t <= 0 then t else t - Slice(t, left)
  }

  /** What is left of `r` at the turn of address `i` of `n`, if every lag is `lag` and every slice is
      used up. */
  function Least(r: int, n: nat, lag: nat, i: nat): int
    requires i <= n
  {
    if i == 0 then r else AfterSlice(Least(r, n, lag, i - 1) - lag, n - (i - 1))
  }

  lemma QuotientSteps(r: nat, d: nat, n: nat)
    requires n > 0
    ensures r / n <= (r + d) / n <= r / n + d
  {
    ShareWithin(r, n);
    ShareWithin(r + d, n);
    MulAtLeast(d, n);
    var q, p := r / n, (r + d) / n;
    assert (q + d + 1) * n == (q + 1) * n + d * n;
    if p > q + d {
      MulOrder(q + d + 1, p, n);
    }
    if p < q {
      MulOrder(p + 1, q, n);
    }
  }

  /** More time before a slice is more time after it. */
  lemma AfterSliceGrows(t: int, u: int, left: nat)
    requires left > 0 && t <= u
    ensures AfterSlice(t, left) <= AfterSlice(u, left)
  {
    if u > 0 {
      ShareWithin(u, left);
      if t > 0 {
        ShareWithin(t, left);
        QuotientSteps(t, u - t, left);
      }
    }
  }

  predicate LagsWithin(attempts: seq<Attempt>, lag: nat) {
    forall i | 0 <= i < |attempts| :: attempts[i].lag <= lag
  }

  lemma EndsInSlice(now: nat, deadline: nat, left: nat, a: Attempt)
    requires left > 0 && now < deadline && a.heeds
    ensures deadline - EndOf(now, deadline, left, a) >= AfterSlice(deadline - now, left)
    ensures a.takes >= deadline ==> deadline - EndOf(now, deadline, left, a) == AfterSlice(deadline - now, left)
  {
    SliceIsSane(now, deadline, left);
  }

  /** No turn comes later than that. */
  lemma {:induction false} NeverLess(start: nat, deadline: nat, attempts: seq<Attempt>, lag: nat, i: nat)
    requires i <= |attempts| && Heeding(attempts) && LagsWithin(attempts, lag)
    ensures deadline - Turn(start, deadline, attempts, i) >= Least(deadline - start, |attempts|, lag, i)
  {
    if i > 0 {
      NeverLess(start, deadline, attempts, lag, i - 1);
      var now, left := Begins(start, deadline, attempts, i - 1), |attempts| - (i - 1);
      AfterSliceGrows(Least(deadline - start, |attempts|, lag, i - 1) - lag, deadline - now, left);
      if now < deadline {
        EndsInSlice(now, deadline, left, attempts[i - 1]);
      }
    }
  }

  /** An attempt that lags as long as it may and uses its slice up. */
  function Slowest(deadline: nat, lag: nat): Attempt { Attempt(false, lag, false, true, deadline, false) }

  /** And with such attempts it comes no sooner. */
  lemma {:induction false} NoMore(start: nat, deadline: nat, attempts: seq<Attempt>, lag: nat, i: nat)
    requires i <= |attempts| && forall j | 0 <= j < |attempts| :: attempts[j] == Slowest(deadline, lag)
    ensures deadline - Turn(start, deadline, attempts, i) == Least(deadline - start, |attempts|, lag, i)
  {
    if i > 0 {
      NoMore(start, deadline, attempts, lag, i - 1);
      var now := Begins(start, deadline, attempts, i - 1);
      if now < deadline {
        EndsInSlice(now, deadline, |attempts| - (i - 1), attempts[i - 1]);
      }
    }
  }

  /** No attempt on `n` addresses with lags up to `lag` leaves one of them untried. */
  ghost predicate AllTried(start: nat, deadline: nat, n: nat, lag: nat) {
    forall attempts: seq<Attempt>, i | |attempts| == n && Heeding(attempts) && LagsWithin(attempts, lag) && 0 <= i < n ::
      Reached(start, deadline, attempts, i)
  }

  /** That no address can be left untried, whatever the others do with their slices, holds exactly
      when the slowest attempts leave time for the last. */
  lemma AllTriedIff(start: nat, deadline: nat, n: nat, lag: nat)
    requires n > 0
    ensures AllTried(start, deadline, n, lag) <==> Least(deadline - start, n, lag, n - 1) > lag
  {
    if Least(deadline - start, n, lag, n - 1) > lag {
      forall attempts: seq<Attempt>, i | |attempts| == n && Heeding(attempts) && LagsWithin(attempts, lag) && 0 <= i < n
        ensures Reached(start, deadline, attempts, i)
      {
        NeverLess(start, deadline, attempts, lag, n - 1);
        if !Reached(start, deadline, attempts, i) {
          OutOfReach(start, deadline, attempts, i, n - 1);
        }
      }
    } else {
      var attempts := seq(n, _ => Slowest(deadline, lag));
      NoMore(start, deadline, attempts, lag, n - 1);
      assert Heeding(attempts) && LagsWithin(attempts, lag);
      assert !Reached(start, deadline, attempts, n - 1);
    }
  }

  /** Where the loop takes no time of its own, that is when more than two seconds remain for each
      address but the last. */
  lemma AllTriedWithoutLagIff(start: nat, deadline: nat, n: nat)
    requires n > 0
    ensures AllTried(start, deadline, n, 0) <==> start + SANE_MINIMUM * (n - 1) < deadline
  {
    AllTriedIff(start, deadline, n, 0);
    if start + SANE_MINIMUM * (n - 1) < deadline {
      EnoughLeft(deadline - start, n, n - 1);
    } else {
      TooLittleLeft(deadline - start, n, n - 1);
    }
  }

  lemma {:induction false} EnoughLeft(r: int, n: nat, i: nat)
    requires i < n && r > SANE_MINIMUM * (n - 1)
    ensures Least(r, n, 0, i) > SANE_MINIMUM * (n - 1 - i)
  {
    if i > 0 {
      EnoughLeft(r, n, i - 1);
      ShareAtMost(Least(r, n, 0, i - 1), n - (i - 1));
    }
  }

  lemma {:induction false} TooLittleLeft(r: int, n: nat, i: nat)
    requires i < n && r <= SANE_MINIMUM * (n - 1)
    ensures Least(r, n, 0, i) <= SANE_MINIMUM * (n - 1 - i)
  {
    if i > 0 {
      TooLittleLeft(r, n, i - 1);
    }
  }

  /** A slice leaves more than two seconds for each address after it but the last. */
  lemma ShareAtMost(r: nat, n: nat)
    requires n > 1 && r > SANE_MINIMUM * (n - 1)
    ensures r - Slice(r, n) > SANE_MINIMUM * (n - 2)
  {
    ShareWithin(r, n);
    var s := r / n;
    if s >= SANE_MINIMUM {
      assert s * n == s * (n - 1) + s;
      MulOrder(SANE_MINIMUM, s, n - 1);
    }
  }
}
