/** The last attempt at finding an endpoint, `probeCandidates` of nomination.go: probe every
    candidate at once and take the best-ranked one that answers, as a fold over the order in which
    answers and timers happen to arrive. */
module FallbackProbe {
  import opened Wrappers
  import opened Candidates

  /** A candidate that can be probed: its address, and the remote its answers come from. */
  datatype Target = Target(addr: string, remote: string)

  /** What an address parses to, if it does. */
  type Remotes = string -> Option<string>

  predicate Probeable(c: Candidate, look: Lookup, remotes: Remotes, sockets: Families) {
    remotes(c.addr).Some? && if look(c.addr).is6 then sockets.v6 else sockets.v4
  }

  function TargetsOf(ordered: seq<Candidate>, look: Lookup, remotes: Remotes, sockets: Families): seq<Target> {
    if ordered == [] then []
    else
      var c := ordered[|ordered| - 1];
      var before := TargetsOf(ordered[..|ordered| - 1], look, remotes, sockets);
      if Probeable(c, look, remotes, sockets) then before + [Target(c.addr, remotes(c.addr).value)] else before
  }

  predicate HasSocket(c: Candidate, look: Lookup, remotes: Remotes, sockets: Families) {
    remotes(c.addr).Some? && ((look(c.addr).is6 && sockets.v6) || (!look(c.addr).is6 && sockets.v4))
  }

  /** `targets` stand for the candidates at positions `at`, which rise and leave none out that has a
      socket. */
  ghost predicate StandFor(targets: seq<Target>, at: seq<nat>, ordered: seq<Candidate>, look: Lookup, remotes: Remotes, sockets: Families) {
    && |at| == |targets|
    && (forall k | 0 <= k < |at| :: at[k] < |ordered| && IsTarget(targets[k], ordered[at[k]], remotes))
    && (forall k, l | 0 <= k < l < |at| :: at[k] < at[l])
    && forall i: nat | i < |ordered| :: i in at <==> HasSocket(ordered[i], look, remotes, sockets)
  }

  predicate IsTarget(t: Target, c: Candidate, remotes: Remotes) {
    t.addr == c.addr && remotes(c.addr) == Some(t.remote)
  }

  lemma StandForMore(targets: seq<Target>, at: seq<nat>, ordered: seq<Candidate>, c: Candidate,
                     look: Lookup, remotes: Remotes, sockets: Families)
    requires StandFor(targets, at, ordered, look, remotes, sockets)
    ensures !HasSocket(c, look, remotes, sockets) ==> StandFor(targets, at, ordered + [c], look, remotes, sockets)
    ensures HasSocket(c, look, remotes, sockets) ==>
      StandFor(targets + [Target(c.addr, remotes(c.addr).value)], at + [|ordered|], ordered + [c], look, remotes, sockets)
  {
    var all := ordered + [c];
    forall i: nat | i < |all| ensures i in at <==> i < |ordered| && HasSocket(all[i], look, remotes, sockets) {
      if i in at {
        var k :| 0 <= k < |at| && at[k] == i;
      }
    }
  }

  /** What is probed: every candidate that parses and has a socket of its family, in rank order. */
  lemma {:induction false} TargetsMeaning(ordered: seq<Candidate>, look: Lookup, remotes: Remotes, sockets: Families) returns (at: seq<nat>)
    ensures StandFor(TargetsOf(ordered, look, remotes, sockets), at, ordered, look, remotes, sockets)
  {
    if ordered == [] {
      at := [];
    } else {
      var front, c := ordered[..|ordered| - 1], ordered[|ordered| - 1];
      assert front + [c] == ordered;
      at := TargetsMeaning(front, look, remotes, sockets);
      StandForMore(TargetsOf(front, look, remotes, sockets), at, front, c, look, remotes, sockets);
      if HasSocket(c, look, remotes, sockets) {
        at := at + [|front|];
      }
    }
  }

  /** A remote's rank is the last position at which it is probed. */
  ghost predicate RanksLast(rank: map<string, nat>, targets: seq<Target>) {
    && (forall t | t in targets :: t.remote in rank)
    && (forall r | r in rank :: rank[r] < |targets| && targets[rank[r]].remote == r)
    && (forall r, i | r in rank && rank[r] < i < |targets| :: targets[i].remote != r)
  }

  method BuildTargets(ordered: seq<Candidate>, look: Lookup, remotes: Remotes, sockets: Families)
    returns (targets: seq<Target>, rank: map<string, nat>)
    ensures targets == TargetsOf(ordered, look, remotes, sockets)
    ensures RanksLast(rank, targets)
  {
    targets, rank := [], map[];
    for i := 0 to |ordered|
      invariant targets == TargetsOf(ordered[..i], look, remotes, sockets)
      invariant RanksLast(rank, targets)
    {
      assert ordered[..i + 1][..i] == ordered[..i];
      var c := ordered[i];
      if Probeable(c, look, remotes, sockets) {
        var remote := remotes(c.addr).value;
        targets := targets + [Target(c.addr, remote)];
        rank := rank[remote := |targets| - 1];
      }
    }
    assert ordered[..|ordered|] == ordered;
  }

  // ---------------------------------------------------------------- events

  datatype Event = Response(remote: string) | GraceOver | Timeout

  /** Target `k` has answered among the first `n` events. */
  ghost predicate Answered(rank: map<string, nat>, events: seq<Event>, n: nat, k: nat)
    requires n <= |events|
  {
    exists i | 0 <= i < n :: AnswersAs(rank, events[i], k)
  }

  predicate AnswersAs(rank: map<string, nat>, e: Event, k: nat) {
    e.Response? && e.remote in rank && rank[e.remote] == k
  }

  ghost predicate SomeAnswer(rank: map<string, nat>, events: seq<Event>, n: nat)
    requires n <= |events|
  {
    exists k :: Answered(rank, events, n, k)
  }

  /** An answer from the top target decides at once, the grace period once somebody has answered,
      and the timeout in any case. */
  ghost predicate Decides(rank: map<string, nat>, events: seq<Event>, i: nat)
    requires i < |events|
  {
    match events[i]
    case Response(_) => AnswersAs(rank, events[i], 0)
    case GraceOver => SomeAnswer(rank, events, i)
    case Timeout => true
  }

  ghost predicate DecidedAt(rank: map<string, nat>, events: seq<Event>, i: nat)
    requires i < |events|
  {
    Decides(rank, events, i) && forall j | 0 <= j < i :: !Decides(rank, events, j)
  }

  ghost predicate IsBest(rank: map<string, nat>, events: seq<Event>, n: nat, k: nat)
    requires n <= |events|
  {
    Answered(rank, events, n, k) && forall j | 0 <= j < k :: !Answered(rank, events, n, j)
  }

  ghost predicate BestSoFar(rank: map<string, nat>, events: seq<Event>, n: nat, best: int)
    requires n <= |events|
  {
    if best < 0 then best == -1 && !SomeAnswer(rank, events, n) else IsBest(rank, events, n, best)
  }

  /** The best rank after one more event. */
  function NextBest(rank: map<string, nat>, e: Event, best: int): int {
    if e.Response? && e.remote in rank && (best < 0 || rank[e.remote] < best) then rank[e.remote] else best
  }

  lemma AnsweredNext(rank: map<string, nat>, events: seq<Event>, n: nat, k: nat)
    requires n < |events|
    ensures Answered(rank, events, n + 1, k) <==> Answered(rank, events, n, k) || AnswersAs(rank, events[n], k)
  {
    if AnswersAs(rank, events[n], k) {
      assert Answered(rank, events, n + 1, k);
    }
  }

  lemma BestNext(rank: map<string, nat>, events: seq<Event>, n: nat, best: int)
    requires n < |events| && BestSoFar(rank, events, n, best)
    ensures BestSoFar(rank, events, n + 1, NextBest(rank, events[n], best))
  {
    var next, m := NextBest(rank, events[n], best), n + 1;
    forall k: nat
      ensures Answered(rank, events, m, k) <==> Answered(rank, events, n, k) || AnswersAs(rank, events[n], k)
    {
      AnsweredNext(rank, events, n, k);
    }
    if next >= 0 {
      assert Answered(rank, events, m, next);
    }
  }

  /** Somebody has answered exactly when there is a best rank. */
  lemma BestMeansAnswer(rank: map<string, nat>, events: seq<Event>, n: nat, best: int)
    requires n <= |events| && BestSoFar(rank, events, n, best)
    ensures best >= 0 <==> SomeAnswer(rank, events, n)
  {
  }

  /** The answers that count are those up to the deciding event: if there is one, the best-ranked
      target that answered wins, and otherwise the guess does. Nothing is decided before. */
  ghost predicate Outcome(res: Option<string>, seen: nat, ordered: seq<Candidate>, targets: seq<Target>,
                          rank: map<string, nat>, look: Lookup, events: seq<Event>)
  {
    && seen <= |events|
    && (res == None <==> forall i | 0 <= i < |events| :: !Decides(rank, events, i))
    && (res == None ==> seen == |events|)
    && (res.Some? ==> seen > 0 && DecidedAt(rank, events, seen - 1))
    && (res.Some? && SomeAnswer(rank, events, seen) ==>
          exists k | 0 <= k < |targets| :: IsBest(rank, events, seen, k) && res == Some(targets[k].addr))
    && (res.Some? && !SomeAnswer(rank, events, seen) ==>
          events[seen - 1] == Timeout && res == Some(Guess(ordered, look)))
  }

  method AwaitAnswers(ordered: seq<Candidate>, targets: seq<Target>, rank: map<string, nat>, look: Lookup, events: seq<Event>)
    returns (res: Option<string>, seen: nat)
    requires RanksLast(rank, targets) && targets != []
    ensures Outcome(res, seen, ordered, targets, rank, look, events)
  {
    var bestRank := -1;
    var graceRunning := false;
    seen := 0;
    while seen < |events|
      invariant seen <= |events|
      invariant BestSoFar(rank, events, seen, bestRank) && bestRank < |targets|
      invariant graceRunning <==> bestRank >= 0
      invariant forall i | 0 <= i < seen :: !Decides(rank, events, i)
    {
      var e := events[seen];
      BestNext(rank, events, seen, bestRank);
      BestMeansAnswer(rank, events, seen, bestRank);
      BestMeansAnswer(rank, events, seen + 1, NextBest(rank, e, bestRank));
      seen := seen + 1;
      match e {
        case Response(remote) =>
          if remote in rank {
            var r := rank[remote];
            if r == 0 {
              assert Decides(rank, events, seen - 1);
              return Some(targets[0].addr), seen;
            }
            if bestRank == -1 || r < bestRank {
              bestRank := r;
              graceRunning := true;
            }
          }
        case GraceOver =>
          if graceRunning {
            assert Decides(rank, events, seen - 1);
            return Some(targets[bestRank].addr), seen;
          }
        case Timeout =>
          assert Decides(rank, events, seen - 1);
          if bestRank >= 0 {
            return Some(targets[bestRank].addr), seen;
          }
          var guess := GuessCandidate(ordered, look);
          return Some(guess), seen;
      }
    }
    res := None;
  }

  /** The whole probe. With no socket, no candidate or none that can be probed it only guesses. */
  method ProbeCandidates(cs: seq<Candidate>, local: seq<Candidate>, look: Lookup, remotes: Remotes,
                         sockets: Families, open: bool, events: seq<Event>)
    returns (res: Option<string>)
    ensures var ordered := if open then RankCandidates(OnlyReachable(cs, look, sockets, LocalFamilies(local, look)), look) else [];
      var targets := TargetsOf(ordered, look, remotes, sockets);
      if targets == [] then res == Some(Guess(ordered, look))
      else exists rank, seen :: RanksLast(rank, targets) && Outcome(res, seen, ordered, targets, rank, look, events)
  {
    var ranked := CompatibleCandidates(cs, look, sockets, open, local);
    if !open || |ranked| == 0 {
      var guess := GuessCandidate(ranked, look);
      return Some(guess);
    }
    var targets, rank := BuildTargets(ranked, look, remotes, sockets);
    if |targets| == 0 {
      var guess := GuessCandidate(ranked, look);
      return Some(guess);
    }
    var seen;
    res, seen := AwaitAnswers(ranked, targets, rank, look, events);
    assert RanksLast(rank, targets) && Outcome(res, seen, ranked, targets, rank, look, events);
  }
}
