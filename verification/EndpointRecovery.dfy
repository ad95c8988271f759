/** The recovery of a tunnel that has lost its peer: `recoverWireGuardEndpoints` of tunnel.go, which
    goes twice through every endpoint it knows and then asks for a new negotiation. */
module EndpointRecovery {
  import opened RetryQueue
  import opened Candidates
  import Supervisor

  const INTERVAL: nat := 15_000
  const FIRST_BACKOFF: nat := 5_000
  const MAX_BACKOFF: nat := 30_000
  const ROUNDS: nat := 2

  /** Which switches succeed, how many looks at the context and waits pass before it is found done,
      and whether the closing signal is taken rather than given up. */
  datatype Env = Env(takes: nat -> bool, live: nat, sends: bool)

  datatype Try = Try(endpoint: string, took: bool)

  // ---------------------------------------------------------------- the order of one round

  function Distinct(s: seq<string>, skip: set<string>): seq<string> {
    if s == [] then []
    else
      var before, x := Distinct(s[..|s| - 1], skip), s[|s| - 1];
      if x in skip || x in before then before else before + [x]
  }

  lemma DistinctSnoc(s: seq<string>, front: seq<string>, x: string, skip: set<string>)
    requires s == front + [x]
    ensures Distinct(s, skip)
         == if x in skip || x in Distinct(front, skip) then Distinct(front, skip) else Distinct(front, skip) + [x]
  {
    assert s[..|s| - 1] == front;
  }

  lemma {:induction false} DistinctMeaning(s: seq<string>, skip: set<string>)
    ensures FirstOccurrences(Distinct(s, skip), s, skip)
  {
    if s != [] {
      var front, x := s[..|s| - 1], s[|s| - 1];
      assert s == front + [x];
      DistinctMeaning(front, skip);
      DistinctSnoc(s, front, x, skip);
      FirstOccurrencesSnoc(Distinct(front, skip), front, skip, x);
    }
  }

  lemma {:induction false} DistinctIsShort(s: seq<string>, skip: set<string>)
    ensures |Distinct(s, skip)| <= |s|
  {
    if s != [] {
      DistinctIsShort(s[..|s| - 1], skip);
    }
  }

  function Order(current: string, known: seq<string>): seq<string> { Distinct([current] + known, {""}) }

  lemma OrderHolds(current: string, known: seq<string>, x: string)
    ensures x in Order(current, known) <==> x != "" && (x == current || x in known)
    ensures |Order(current, known)| <= |known| + 1
  {
    DistinctIsShort([current] + known, {""});
    DistinctMeaning([current] + known, {""});
  }

  method BuildOrder(current: string, known: seq<string>) returns (order: seq<string>)
    ensures order == Order(current, known)
  {
    order := BuildEndpointRecoveryOrder(current, known);
    DistinctMeaning([current] + known, {""});
    FirstOccurrencesUnique(order, Order(current, known), [current] + known, {""});
  }

  // ---------------------------------------------------------------- a recovery left alone

  /** The tries of one round, the first of which is try number `n`. */
  function Tries(order: seq<string>, env: Env, n: nat): seq<Try> {
    seq(|order|, i requires 0 <= i < |order| => Try(order[i], env.takes(n + i)))
  }

  /** The endpoint in use after these tries. */
  function LastTaken(current: string, tries: seq<Try>): string {
    if tries == [] then current
    else if tries[|tries| - 1].took then tries[|tries| - 1].endpoint
    else LastTaken(current, tries[..|tries| - 1])
  }

  function FirstRound(current: string, known: seq<string>, env: Env): seq<Try> {
    Tries(Order(current, known), env, 0)
  }

  /** The second round starts from the endpoint that the first has left in use. */
  function SecondRound(current: string, known: seq<string>, env: Env): seq<Try> {
    var first := FirstRound(current, known, env);
    Tries(Order(LastTaken(current, first), known), env, |first|)
  }

  /** The looks and waits of a recovery that runs to its end: two a try, one a round. */
  function Looks(current: string, known: seq<string>, env: Env): nat {
    2 * |FirstRound(current, known, env)| + 2 * |SecondRound(current, known, env)| + ROUNDS
  }

  // ---------------------------------------------------------------- the loops

  /** Tries number `n` on: one round, from look number `looks` on. */
  method TryAll(order: seq<string>, current: string, env: Env, n: nat, looks: nat)
    returns (tries: seq<Try>, current': string, looks': nat, waited: nat, alive: bool)
    requires looks <= env.live
    ensures tries <= Tries(order, env, n) && current' == LastTaken(current, tries)
    ensures looks <= looks' <= env.live
    ensures alive <==> looks + 2 * |order| <= env.live
    ensures alive ==> tries == Tries(order, env, n) && looks' == looks + 2 * |order| && waited == INTERVAL * |order|
    ensures !alive ==> env.live - looks <= 2 * |tries| <= env.live - looks + 1
  {
    tries, current', looks', waited := [], current, looks, 0;
    for i := 0 to |order|
      invariant tries == Tries(order, env, n)[..i] && current' == LastTaken(current, tries)
      invariant looks' == looks + 2 * i <= env.live && waited == INTERVAL * i
    {
      if looks' >= env.live {
        return tries, current', looks', waited, false;
      }
      looks' := looks' + 1;
      var took := env.takes(n + i);
      ghost var before := tries;
      tries := tries + [Try(order[i], took)];
      assert tries[..|tries| - 1] == before;
      if took {
        current' := order[i];
      }
      if looks' >= env.live {
        return tries, current', looks', waited, false;
      }
      looks' := looks' + 1;
      waited := waited + INTERVAL;
    }
    alive := true;
  }

  /** Left alone, the recovery tries every endpoint of both rounds, each for its interval, and rests
      after either; only then, and unless the context ends first, it signals exhaustion. Cancelled, it
      has made the tries that its looks allowed and no more. */
  method RecoverWireGuardEndpoints(current: string, known: seq<string>, env: Env)
    returns (tries: seq<Try>, waited: nat, signalled: bool)
    ensures tries <= FirstRound(current, known, env) + SecondRound(current, known, env)
    ensures signalled <==> env.sends && Looks(current, known, env) <= env.live
    ensures Looks(current, known, env) <= env.live ==>
      && tries == FirstRound(current, known, env) + SecondRound(current, known, env)
      && waited == INTERVAL * |tries| + FIRST_BACKOFF + 2 * FIRST_BACKOFF
    ensures |tries| < |FirstRound(current, known, env)| ==> env.live <= 2 * |tries| <= env.live + 1
    ensures |FirstRound(current, known, env)| < |tries| < |FirstRound(current, known, env) + SecondRound(current, known, env)|
            ==> env.live <= 2 * |tries| + 1 <= env.live + 1
  {
    ghost var first, second := FirstRound(current, known, env), SecondRound(current, known, env);
    assert second == Tries(Order(LastTaken(current, first), known), env, |first|);
    assert Looks(current, known, env) == 2 * |first| + 2 * |second| + ROUNDS;
    tries, waited, signalled := [], 0, false;
    var endpoint, looks, backoff := current, 0, FIRST_BACKOFF;
    for round := 0 to ROUNDS
      invariant round == 0 ==> tries == [] && endpoint == current && looks == 0 && waited == 0 && backoff == FIRST_BACKOFF
      invariant round == 1 ==> tries == first && endpoint == LastTaken(current, first)
      invariant round == 1 ==> looks == 2 * |first| + 1 && backoff == 2 * FIRST_BACKOFF
      invariant round == 1 ==> waited == INTERVAL * |first| + FIRST_BACKOFF
      invariant round == 2 ==> tries == first + second && looks == Looks(current, known, env)
      invariant round == 2 ==> waited == INTERVAL * |tries| + FIRST_BACKOFF + 2 * FIRST_BACKOFF
      invariant looks <= env.live
    {
      var order := BuildOrder(endpoint, known);
      var more, next, looked, slept, alive := TryAll(order, endpoint, env, |tries|, looks);
      assert more <= if round == 0 then first else second;
      tries, endpoint, looks, waited := tries + more, next, looked, waited + slept;
      if !alive || looks >= env.live {
        return;
      }
      looks, waited := looks + 1, waited + backoff;
      backoff := if 2 * backoff > MAX_BACKOFF then MAX_BACKOFF else 2 * backoff;
    }
    signalled := env.sends;
  }

  // ---------------------------------------------------------------- what it amounts to

  lemma {:induction false} TakenFrom(current: string, tries: seq<Try>)
    ensures LastTaken(current, tries) == current || exists t | t in tries :: t.endpoint == LastTaken(current, tries)
  {
    if tries != [] && !tries[|tries| - 1].took {
      TakenFrom(current, tries[..|tries| - 1]);
    }
  }

  /** The endpoint left in use is the last that a switch went to, and otherwise the one before. */
  lemma {:induction false} LastTakenMeaning(current: string, tries: seq<Try>)
    ensures (exists i | 0 <= i < |tries| ::
              && tries[i].took && LastTaken(current, tries) == tries[i].endpoint
              && forall j | i < j < |tries| :: !tries[j].took)
         || ((forall i | 0 <= i < |tries| :: !tries[i].took) && LastTaken(current, tries) == current)
  {
    if tries != [] && !tries[|tries| - 1].took {
      LastTakenMeaning(current, tries[..|tries| - 1]);
    }
  }

  predicate TriedIn(x: string, tries: seq<Try>) { exists t | t in tries :: t.endpoint == x }

  lemma TriedMeaning(order: seq<string>, env: Env, n: nat, x: string)
    ensures TriedIn(x, Tries(order, env, n)) <==> x in order
  {
    var tries := Tries(order, env, n);
    if x in order {
      var i :| 0 <= i < |order| && order[i] == x;
      assert tries[i] in tries;
    }
  }

  /** Each round tries the known endpoints and the one in use when it begins. */
  lemma RoundsHold(current: string, known: seq<string>, env: Env, x: string)
    ensures TriedIn(x, FirstRound(current, known, env)) <==> x != "" && (x == current || x in known)
    ensures TriedIn(x, SecondRound(current, known, env))
       <==> x != "" && (x == LastTaken(current, FirstRound(current, known, env)) || x in known)
  {
    var first := FirstRound(current, known, env);
    var used := LastTaken(current, first);
    OrderHolds(current, known, x);
    OrderHolds(used, known, x);
    TriedMeaning(Order(current, known), env, 0, x);
    TriedMeaning(Order(used, known), env, |first|, x);
  }

  /** The second round tries everything again that the first did. */
  ghost predicate NothingForgotten(current: string, known: seq<string>, env: Env) {
    forall x | TriedIn(x, FirstRound(current, known, env)) :: TriedIn(x, SecondRound(current, known, env))
  }

  /** Known by name, or the only endpoint there is. */
  predicate Remembered(current: string, known: seq<string>) {
    current == "" || current in known || forall k | k in known :: k == ""
  }

  /** In one recovery: unless the tunnel came from an endpoint it does not know by name and has
      since taken another. */
  lemma ForgottenByTaking(current: string, known: seq<string>, env: Env)
    ensures NothingForgotten(current, known, env)
       <==> current == "" || current in known || LastTaken(current, FirstRound(current, known, env)) == current
  {
    forall x {
      RoundsHold(current, known, env, x);
    }
    RoundsHold(current, known, env, current);
  }

  lemma AllTaken(current: string, tries: seq<Try>)
    requires tries != [] && tries[|tries| - 1].took
    ensures LastTaken(current, tries) == tries[|tries| - 1].endpoint
  {
  }

  /** An endpoint that is not remembered is forgotten when every switch succeeds. */
  lemma Forgetting(current: string, known: seq<string>) returns (env: Env)
    requires !Remembered(current, known)
    ensures TriedIn(current, FirstRound(current, known, env)) && !TriedIn(current, SecondRound(current, known, env))
  {
    env := Env(_ => true, 0, false);
    var first := FirstRound(current, known, env);
    RoundsHold(current, known, env, current);
    OrderStarts(current, known);
    var order := Order(current, known);
    var k :| k in known && k != "";
    OrderHolds(current, known, k);
    var last := order[|order| - 1];
    assert last in order && last != current;
    AllTaken(current, first);
  }

  /** The endpoint in use is tried first, and once. */
  lemma OrderStarts(current: string, known: seq<string>)
    requires current != ""
    ensures var order := Order(current, known);
      order != [] && order[0] == current && forall i | 0 < i < |order| :: order[i] != current
  {
    var s, order := [current] + known, Order(current, known);
    DistinctMeaning(s, {""});
    assert current in order;
    var i :| 0 <= i < |order| && order[i] == current;
    assert First(s, current) == 0;
  }

  /** In all recoveries: whatever the switches do, nothing is forgotten exactly if the endpoint in
      use at the start is remembered. */
  lemma NothingForgottenIff(current: string, known: seq<string>)
    ensures (forall env :: NothingForgotten(current, known, env)) <==> Remembered(current, known)
  {
    if Remembered(current, known) {
      forall env ensures NothingForgotten(current, known, env) {
        ForgottenByTaking(current, known, env);
        if forall k | k in known :: k == "" {
          OnlyOneToTake(current, known, env);
        }
      }
    } else {
      var env := Forgetting(current, known);
      assert !NothingForgotten(current, known, env);
    }
  }

  lemma OnlyOneToTake(current: string, known: seq<string>, env: Env)
    requires forall k | k in known :: k == ""
    ensures LastTaken(current, FirstRound(current, known, env)) == current
  {
    var first := FirstRound(current, known, env);
    TakenFrom(current, first);
    RoundsHold(current, known, env, LastTaken(current, first));
  }

  /** Nor does it try anything new: it can only begin with an endpoint the first round tried. */
  lemma NothingNewInRoundTwo(current: string, known: seq<string>, env: Env, x: string)
    requires TriedIn(x, SecondRound(current, known, env))
    ensures TriedIn(x, FirstRound(current, known, env))
  {
    var first := FirstRound(current, known, env);
    RoundsHold(current, known, env, x);
    TakenFrom(current, first);
    RoundsHold(current, known, env, LastTaken(current, first));
  }

  /** The waits of a recovery, one a try and one a round, are as many as the supervisor's model
      allows. */
  lemma PausesFit(current: string, known: seq<string>, env: Env)
    ensures var pauses := |FirstRound(current, known, env)| + |SecondRound(current, known, env)| + ROUNDS;
      2 <= pauses <= Supervisor.MaxPauses(Supervisor.Config(|known|))
  {
    OrderHolds(current, known, "");
    OrderHolds(LastTaken(current, FirstRound(current, known, env)), known, "");
  }
}
