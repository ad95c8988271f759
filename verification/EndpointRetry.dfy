/** The timed endpoint retry of tunnel.go: `retryEndpointOnHandshakeTimeout` and the functions it
    uses. Times are in milliseconds since the device came up.

    `Pass` is one turn of the loop for given outcomes of its system calls, `RetryLoop` the loop itself,
    proved against it. The state keeps a record of every switch, so that the invariant can speak
    about whole runs. */
module EndpointRetry {
  import opened Candidates

  const PRIVATE_DWELL: nat := 3000
  const PUBLIC_DWELL: nat := 6000
  const RELAY_DWELL: nat := 25_000
  const MAX_DURATION: nat := 60_000

  /** What the loop is given: where it starts, what to try, what is known of the addresses and what
      a late nomination would say. */
  datatype Config = Config(initial: string, queue: seq<string>, types: map<string, string>, look: Lookup, nominated: string)

  function Dwell(c: Config, addr: string): nat {
    if addr in c.types && c.types[addr] == "turn" then RELAY_DWELL
    else if c.look(addr).public then PUBLIC_DWELL
    else PRIVATE_DWELL
  }

  // ---------------------------------------------------------------- the next candidate

  predicate Usable(addr: string, current: string) { addr != "" && addr != current }

  /** The first usable position from `start` on, or the queue's length. */
  function NextUsable(queue: seq<string>, start: nat, current: string): (k: nat)
    requires start <= |queue|
    ensures start <= k <= |queue| && (k < |queue| ==> Usable(queue[k], current))
    ensures forall i | start <= i < k :: !Usable(queue[i], current)
    decreases |queue| - start
  {
    if start == |queue| || Usable(queue[start], current) then start else NextUsable(queue, start + 1, current)
  }

  method NextEndpointCandidate(queue: seq<string>, start: nat, current: string)
    returns (candidate: string, next: nat, ok: bool)
    requires start <= |queue|
    ensures var k := NextUsable(queue, start, current);
      if k < |queue| then ok && candidate == queue[k] && next == k + 1
      else !ok && candidate == "" && next == |queue|
  {
    next := start;
    while next < |queue|
      invariant start <= next <= |queue|
      invariant NextUsable(queue, next, current) == NextUsable(queue, start, current)
    {
      candidate := queue[next];
      next := next + 1;
      if candidate == "" || candidate == current {
        continue;
      }
      return candidate, next, true;
    }
    return "", next, false;
  }

  // ---------------------------------------------------------------- one turn of the loop

  datatype Kind = ContextDone | Nominated | Tick

  /** What wakes the loop, how long it had waited, how long each later look at the clock lags the
      one before, and how its calls turn out. */
  datatype Wake = Wake(
    kind: Kind, wait: nat,
    nominationOk: bool, adoptLag: nat,
    statsOk: bool, handshake: bool, expiryLag: nat,
    dwellLag: nat, switchOk: bool, switchLag: nat)

  datatype Outcome = Running | Stopped | Connected | Exhausted

  datatype Origin = Late | Queue(index: nat)

  /** A successful switch: `since` is when the endpoint left behind had been switched to, `decided`
      when its time was found to be up, `at` when the new one's began. */
  datatype Switch = Switch(origin: Origin, from: string, to: string, since: nat, decided: nat, at: nat)

  datatype State = State(
    now: nat,
    current: string,
    queueIdx: nat,
    lastSwitch: nat,
    nominationOpen: bool,
    outcome: Outcome,
    signals: nat,
    switches: seq<Switch>)

  function Start(c: Config): State { State(0, c.initial, 0, 0, true, Running, 0, []) }

  function Switched(s: State, origin: Origin, to: string, decided: nat, at: nat): State {
    s.(current := to, lastSwitch := at, now := at,
       switches := s.switches + [Switch(origin, s.current, to, s.lastSwitch, decided, at)])
  }

  /** A late nomination that names another endpoint is adopted; one that does not ends the turn. */
  function Adopted(c: Config, s: State, w: Wake): (State, bool) {
    var s1 := s.(nominationOpen := false);
    if c.nominated == "" || c.nominated == s.current then (s1, false)
    else if w.nominationOk then (Switched(s1, Late, c.nominated, s.now, s.now + w.adoptLag), true)
    else (s1, true)
  }

  function Signalled(s: State): State { s.(outcome := Exhausted, signals := s.signals + 1) }

  function Checked(c: Config, s: State, w: Wake): (t: State)
    requires s.queueIdx <= |c.queue|
    ensures s.queueIdx <= t.queueIdx <= |c.queue|
  {
    var s1 := s.(now := s.now + w.expiryLag);
    if !w.statsOk then (if s1.now >= MAX_DURATION then Signalled(s1) else s1)
    else if w.handshake then s1.(outcome := Connected)
    else if s1.now >= MAX_DURATION then Signalled(s1)
    else
      var s2 := s1.(now := s1.now + w.dwellLag);
      if s2.now - s2.lastSwitch < Dwell(c, s2.current) then s2
      else
        var k := NextUsable(c.queue, s.queueIdx, s.current);
        if k == |c.queue| then Signalled(s2.(queueIdx := k))
        else if w.switchOk then
          Switched(s2.(queueIdx := k + 1), Queue(k), c.queue[k], s2.now, s2.now + w.switchLag)
        else s2.(queueIdx := k + 1)
  }

  /** A nomination fires once; after that its channel is gone from the select. */
  predicate Wakes(s: State, w: Wake) {
    s.outcome == Running && (w.kind == Nominated ==> s.nominationOpen)
  }

  function Woken(s: State, w: Wake): State { s.(now := s.now + w.wait) }

  function AfterNomination(c: Config, s: State, w: Wake): (t: State)
    requires s.queueIdx <= |c.queue|
    ensures s.queueIdx <= t.queueIdx <= |c.queue|
  {
    var (s1, checks) := Adopted(c, s, w);
    if checks then Checked(c, s1, w) else s1
  }

  function Pass(c: Config, s: State, w: Wake): (t: State)
    requires s.queueIdx <= |c.queue|
    ensures s.queueIdx <= t.queueIdx <= |c.queue|
  {
    if !Wakes(s, w) then s
    else
      match w.kind
      case ContextDone => Woken(s, w).(outcome := Stopped)
      case Nominated => AfterNomination(c, Woken(s, w), w)
      case Tick => Checked(c, Woken(s, w), w)
  }

  // ---------------------------------------------------------------- the invariant

  /** What holds of each switch, given how far the queue has been used up and whether the
      nomination is still to come. */
  predicate SwitchInv(c: Config, switches: seq<Switch>, i: nat, queueIdx: nat, nominationOpen: bool)
    requires i < |switches|
  {
    var sw := switches[i];
    && sw.from == (if i == 0 then c.initial else switches[i - 1].to)
    && sw.since == (if i == 0 then 0 else switches[i - 1].at)
    && sw.since <= sw.decided <= sw.at && Usable(sw.to, sw.from)
    && match sw.origin
       case Late => !nominationOpen && sw.to == c.nominated
       case Queue(k) => k < queueIdx <= |c.queue| && c.queue[k] == sw.to && sw.decided - sw.since >= Dwell(c, sw.from)
  }

  ghost predicate Chained(c: Config, switches: seq<Switch>, queueIdx: nat, nominationOpen: bool) {
    forall i | 0 <= i < |switches| :: SwitchInv(c, switches, i, queueIdx, nominationOpen)
  }

  /** No queue position, and no late nomination, is switched to twice; positions only go forwards. */
  predicate Follows(earlier: Switch, later: Switch) {
    match (earlier.origin, later.origin)
    case (Queue(i), Queue(j)) => i < j
    case (Late, Late) => false
    case _ => true
  }

  ghost predicate InTurn(switches: seq<Switch>) {
    forall i, j | 0 <= i < j < |switches| :: Follows(switches[i], switches[j])
  }

  ghost predicate Inv(c: Config, s: State) {
    && s.queueIdx <= |c.queue|
    && s.lastSwitch <= s.now
    && s.signals == (if s.outcome == Exhausted then 1 else 0)
    && s.current == (if s.switches == [] then c.initial else s.switches[|s.switches| - 1].to)
    && s.lastSwitch == (if s.switches == [] then 0 else s.switches[|s.switches| - 1].at)
    && Chained(c, s.switches, s.queueIdx, s.nominationOpen)
    && InTurn(s.switches)
  }

  /** `s'` may follow `s` in a run. */
  ghost predicate Advances(c: Config, s: State, s': State) {
    Inv(c, s') && s.queueIdx <= s'.queueIdx && s.now <= s'.now
  }

  lemma ChainedLater(c: Config, switches: seq<Switch>, k: nat, open: bool, k': nat, open': bool)
    requires Chained(c, switches, k, open) && k <= k' <= |c.queue| && (open' ==> open)
    ensures Chained(c, switches, k', open')
  {
    forall i | 0 <= i < |switches| ensures SwitchInv(c, switches, i, k', open') {
      assert SwitchInv(c, switches, i, k, open);
    }
  }

  /** One more switch at the end of a chain. */
  lemma ChainGrows(c: Config, switches: seq<Switch>, k: nat, open: bool, sw: Switch)
    requires Chained(c, switches, k, open) && InTurn(switches)
    requires SwitchInv(c, switches + [sw], |switches|, k, open)
    requires forall i | 0 <= i < |switches| :: Follows(switches[i], sw)
    ensures Chained(c, switches + [sw], k, open) && InTurn(switches + [sw])
  {
    var all := switches + [sw];
    forall i | 0 <= i < |all| ensures SwitchInv(c, all, i, k, open) {
      if i < |switches| {
        assert SwitchInv(c, switches, i, k, open);
      }
    }
  }

  /** A switch to queue position `k`, when none from `k` on has been used. */
  lemma QueueSwitchKeeps(c: Config, s: State, k: nat, decided: nat, at: nat)
    requires Inv(c, s) && s.queueIdx <= k < |c.queue| && s.lastSwitch <= decided <= at
    requires Usable(c.queue[k], s.current) && decided - s.lastSwitch >= Dwell(c, s.current)
    ensures Inv(c, Switched(s.(queueIdx := k + 1), Queue(k), c.queue[k], decided, at))
  {
    var sw := Switch(Queue(k), s.current, c.queue[k], s.lastSwitch, decided, at);
    forall i | 0 <= i < |s.switches| ensures Follows(s.switches[i], sw) {
      assert SwitchInv(c, s.switches, i, s.queueIdx, s.nominationOpen);
    }
    ChainedLater(c, s.switches, s.queueIdx, s.nominationOpen, k + 1, s.nominationOpen);
    ChainGrows(c, s.switches, k + 1, s.nominationOpen, sw);
  }

  lemma LateSwitchKeeps(c: Config, s: State, decided: nat, at: nat)
    requires Inv(c, s) && s.nominationOpen && s.lastSwitch <= decided <= at
    requires Usable(c.nominated, s.current)
    ensures Inv(c, Switched(s.(nominationOpen := false), Late, c.nominated, decided, at))
  {
    var sw := Switch(Late, s.current, c.nominated, s.lastSwitch, decided, at);
    forall i | 0 <= i < |s.switches| ensures Follows(s.switches[i], sw) {
      assert SwitchInv(c, s.switches, i, s.queueIdx, s.nominationOpen);
    }
    ChainedLater(c, s.switches, s.queueIdx, s.nominationOpen, s.queueIdx, false);
    ChainGrows(c, s.switches, s.queueIdx, false, sw);
  }

  /** Changing anything but the switches, forwards in time and in the queue, keeps the invariant. */
  lemma OtherKeeps(c: Config, s: State, s': State)
    requires Inv(c, s)
    requires s'.switches == s.switches && s'.current == s.current && s'.lastSwitch == s.lastSwitch
    requires s.now <= s'.now && s.queueIdx <= s'.queueIdx <= |c.queue|
    requires s'.nominationOpen ==> s.nominationOpen
    requires s'.signals == (if s'.outcome == Exhausted then 1 else 0)
    ensures Inv(c, s')
  {
    ChainedLater(c, s.switches, s.queueIdx, s.nominationOpen, s'.queueIdx, s'.nominationOpen);
  }

  lemma AdoptedKeeps(c: Config, s: State, w: Wake)
    requires Inv(c, s) && s.outcome == Running && s.nominationOpen
    ensures Inv(c, Adopted(c, s, w).0) && Adopted(c, s, w).0.queueIdx == s.queueIdx
    ensures Adopted(c, s, w).0.outcome == Running && Adopted(c, s, w).0.now >= s.now
  {
    if Usable(c.nominated, s.current) && w.nominationOk {
      LateSwitchKeeps(c, s, s.now, s.now + w.adoptLag);
      OtherKeeps(c, Switched(s.(nominationOpen := false), Late, c.nominated, s.now, s.now + w.adoptLag), Adopted(c, s, w).0);
    } else {
      OtherKeeps(c, s, Adopted(c, s, w).0);
    }
  }

  lemma CheckedKeeps(c: Config, s: State, w: Wake)
    requires Inv(c, s) && s.outcome == Running
    ensures Advances(c, s, Checked(c, s, w))
  {
    var s' := Checked(c, s, w);
    if s'.switches == s.switches {
      assert s'.current == s.current && s'.lastSwitch == s.lastSwitch;
      OtherKeeps(c, s, s');
    } else {
      var k, t := NextUsable(c.queue, s.queueIdx, s.current), s.now + w.expiryLag + w.dwellLag;
      QueueSwitchKeeps(c, s, k, t, t + w.switchLag);
      OtherKeeps(c, Switched(s.(queueIdx := k + 1), Queue(k), c.queue[k], t, t + w.switchLag), s');
    }
  }

  lemma NominationKeeps(c: Config, s: State, w: Wake)
    requires Inv(c, s) && s.outcome == Running && s.nominationOpen
    ensures Advances(c, s, AfterNomination(c, s, w))
  {
    AdoptedKeeps(c, s, w);
    if Adopted(c, s, w).1 {
      CheckedKeeps(c, Adopted(c, s, w).0, w);
    }
  }

  lemma WokenKeeps(c: Config, s: State, w: Wake)
    requires Inv(c, s)
    ensures Advances(c, s, Woken(s, w))
  {
    OtherKeeps(c, s, Woken(s, w));
  }

  lemma AdvancesTransitive(c: Config, s: State, t: State, u: State)
    requires Advances(c, s, t) && Advances(c, t, u)
    ensures Advances(c, s, u)
  {
  }

  lemma StopAdvances(c: Config, s: State)
    requires Inv(c, s) && s.outcome == Running
    ensures Advances(c, s, s.(outcome := Stopped))
  {
    OtherKeeps(c, s, s.(outcome := Stopped));
  }

  /** Every turn keeps the invariant and never goes back, in time or in the queue. */
  lemma PassAdvances(c: Config, s: State, w: Wake)
    requires Inv(c, s)
    ensures Advances(c, s, Pass(c, s, w))
    ensures s.outcome != Running ==> Pass(c, s, w) == s
  {
    if Wakes(s, w) {
      var t := Woken(s, w);
      WokenKeeps(c, s, w);
      match w.kind
      case ContextDone => StopAdvances(c, t); AdvancesTransitive(c, s, t, Pass(c, s, w));
      case Nominated => NominationKeeps(c, t, w); AdvancesTransitive(c, s, t, Pass(c, s, w));
      case Tick => CheckedKeeps(c, t, w); AdvancesTransitive(c, s, t, Pass(c, s, w));
    }
  }

  // ---------------------------------------------------------------- when it ends

  /** A tick exhausts the retry exactly when no handshake is seen and either the time is up, or the
      statistics can be read, the endpoint's dwell is over and nothing usable is left. */
  lemma ExhaustsExactlyWhen(c: Config, s: State, w: Wake)
    requires Inv(c, s) && s.outcome == Running && w.kind == Tick
    ensures var checkedAt := s.now + w.wait + w.expiryLag;
      Pass(c, s, w).outcome == Exhausted <==>
        && !(w.statsOk && w.handshake)
        && (checkedAt >= MAX_DURATION
            || (w.statsOk && checkedAt + w.dwellLag - s.lastSwitch >= Dwell(c, s.current)
                && forall i | s.queueIdx <= i < |c.queue| :: !Usable(c.queue[i], s.current)))
  {
  }

  function AfterWakes(c: Config, ws: seq<Wake>): (s: State)
    ensures s.queueIdx <= |c.queue|
  {
    if ws == [] then Start(c) else Pass(c, AfterWakes(c, ws[..|ws| - 1]), ws[|ws| - 1])
  }

  /** For every run: at most one signal, each queue position switched to at most once and in order,
      each queue switch only after the dwell of the endpoint it leaves, a late nomination adopted
      at most once. */
  lemma {:induction false} RunKeepsInv(c: Config, ws: seq<Wake>)
    ensures Inv(c, AfterWakes(c, ws))
  {
    if ws != [] {
      RunKeepsInv(c, ws[..|ws| - 1]);
      PassAdvances(c, AfterWakes(c, ws[..|ws| - 1]), ws[|ws| - 1]);
    }
  }

  /** A tick leads to a check, and so does a late nomination that names another endpoint. */
  predicate Checks(c: Config, s: State, w: Wake) {
    w.kind == Tick || (w.kind == Nominated && s.nominationOpen && Usable(c.nominated, s.current))
  }

  /** When the check looks at the clock. */
  function CheckTime(s: State, w: Wake): nat {
    s.now + w.wait + (if w.kind == Nominated && w.nominationOk then w.adoptLag else 0) + w.expiryLag
  }

  /** A loop still running has made no check at or after sixty seconds; one that saw neither a
      handshake nor a cancellation has, by that check, signalled exhaustion, and only once. */
  lemma {:induction false} EndsBySixtySeconds(c: Config, ws: seq<Wake>, i: nat)
    requires i < |ws| && Checks(c, AfterWakes(c, ws[..i]), ws[i])
    requires CheckTime(AfterWakes(c, ws[..i]), ws[i]) >= MAX_DURATION
    ensures AfterWakes(c, ws).outcome != Running
    ensures NothingHappens(ws) ==> AfterWakes(c, ws).outcome == Exhausted && AfterWakes(c, ws).signals == 1
    decreases |ws|
  {
    var front, last := ws[..|ws| - 1], ws[|ws| - 1];
    RunKeepsInv(c, ws);
    RunKeepsInv(c, front);
    if i < |front| {
      assert ws[..i] == front[..i];
      EndsBySixtySeconds(c, front, i);
      PassAdvances(c, AfterWakes(c, front), last);
    } else {
      LateCheckEnds(c, AfterWakes(c, front), last);
      if NothingHappens(ws) {
        NoEndWithoutCause(c, front);
      }
    }
  }

  /** Neither a handshake nor a cancellation. */
  predicate NothingHappens(ws: seq<Wake>) {
    forall j | 0 <= j < |ws| :: ws[j].kind != ContextDone && !ws[j].handshake
  }

  lemma LateCheckEnds(c: Config, s: State, w: Wake)
    requires s.queueIdx <= |c.queue| && Checks(c, s, w) && CheckTime(s, w) >= MAX_DURATION
    ensures Pass(c, s, w).outcome != Running
    ensures s.outcome == Running && !w.handshake ==> Pass(c, s, w).outcome == Exhausted
    ensures s.outcome != Running ==> Pass(c, s, w).outcome == s.outcome
  {
  }

  lemma {:induction false} NoEndWithoutCause(c: Config, ws: seq<Wake>)
    requires NothingHappens(ws)
    ensures AfterWakes(c, ws).outcome == Running || AfterWakes(c, ws).outcome == Exhausted
  {
    if ws != [] {
      NoEndWithoutCause(c, ws[..|ws| - 1]);
      OnlyExhaustion(c, AfterWakes(c, ws[..|ws| - 1]), ws[|ws| - 1]);
    }
  }

  lemma OnlyExhaustion(c: Config, s: State, w: Wake)
    requires s.queueIdx <= |c.queue| && w.kind != ContextDone && !w.handshake
    ensures Pass(c, s, w).outcome == s.outcome || Pass(c, s, w).outcome == Exhausted
  {
  }

  // ---------------------------------------------------------------- few checks go by

  function Ticks(ws: seq<Wake>): nat {
    if ws == [] then 0 else Ticks(ws[..|ws| - 1]) + (if ws[|ws| - 1].kind == Tick then 1 else 0)
  }

  /** The ticker runs by the second, and was started `lead` before the loop's own clock. */
  predicate PacedAt(c: Config, ws: seq<Wake>, lead: nat, i: nat)
    requires i < |ws|
  {
    ws[i].kind == Tick ==> AfterWakes(c, ws[..i]).now + ws[i].wait + lead >= 1000 * Ticks(ws[..i + 1])
  }

  /** As long as the loop runs, its ticks keep to that pace. */
  predicate Paced(c: Config, ws: seq<Wake>, lead: nat) {
    forall i | 0 <= i < |ws| && AfterWakes(c, ws[..i]).outcome == Running :: PacedAt(c, ws, lead, i)
  }

  lemma PacedBefore(c: Config, ws: seq<Wake>, lead: nat)
    requires ws != [] && Paced(c, ws, lead)
    ensures Paced(c, ws[..|ws| - 1], lead)
  {
    var front := ws[..|ws| - 1];
    forall i | 0 <= i < |front| && AfterWakes(c, front[..i]).outcome == Running ensures PacedAt(c, front, lead, i) {
      assert front[..i] == ws[..i] && front[..i + 1] == ws[..i + 1];
      assert PacedAt(c, ws, lead, i);
    }
  }

  lemma StillRunning(c: Config, ws: seq<Wake>)
    requires ws != [] && AfterWakes(c, ws).outcome == Running
    ensures AfterWakes(c, ws[..|ws| - 1]).outcome == Running
  {
    RunKeepsInv(c, ws[..|ws| - 1]);
    PassAdvances(c, AfterWakes(c, ws[..|ws| - 1]), ws[|ws| - 1]);
  }

  /** No more ticks than there are seconds in the limit: by then the loop has ended. */
  lemma {:induction false} TicksRunOut(c: Config, ws: seq<Wake>, lead: nat)
    requires Paced(c, ws, lead) && Ticks(ws) > 0 && 1000 * Ticks(ws) >= MAX_DURATION + lead
    ensures AfterWakes(c, ws).outcome != Running
  {
    var front, last := ws[..|ws| - 1], ws[|ws| - 1];
    if AfterWakes(c, ws).outcome == Running {
      StillRunning(c, ws);
      PacedBefore(c, ws, lead);
      if last.kind == Tick {
        assert PacedAt(c, ws, lead, |ws| - 1) && ws[..|ws|] == ws;
        LateCheckEnds(c, AfterWakes(c, front), last);
      } else {
        TicksRunOut(c, front, lead);
      }
    }
  }

  /** The checks that find nothing to end the loop. */
  function IdleChecks(c: Config, ws: seq<Wake>): nat {
    if ws == [] then 0
    else
      var front, last := ws[..|ws| - 1], ws[|ws| - 1];
      var idle := Checks(c, AfterWakes(c, front), last) && AfterWakes(c, ws).outcome == Running;
      IdleChecks(c, front) + if idle then 1 else 0
  }

  /** While the loop runs they are the ticks, and perhaps one for the late nomination. */
  lemma {:induction false} IdleChecksAreTicks(c: Config, ws: seq<Wake>)
    requires AfterWakes(c, ws).outcome == Running
    ensures IdleChecks(c, ws) <= Ticks(ws) + if AfterWakes(c, ws).nominationOpen then 0 else 1
  {
    if ws != [] {
      StillRunning(c, ws);
      IdleChecksAreTicks(c, ws[..|ws| - 1]);
      NominationCloses(c, AfterWakes(c, ws[..|ws| - 1]), ws[|ws| - 1]);
    }
  }

  lemma NominationCloses(c: Config, s: State, w: Wake)
    requires s.queueIdx <= |c.queue| && s.outcome == Running
    ensures Pass(c, s, w).nominationOpen ==> s.nominationOpen
    ensures w.kind == Nominated && s.nominationOpen ==> !Pass(c, s, w).nominationOpen
  {
  }

  const MAX_CHECKS: nat := 61

  /** With a ticker started no more than a second early, sixty-one at most. */
  lemma {:induction false} IdleChecksAreFew(c: Config, ws: seq<Wake>, lead: nat)
    requires Paced(c, ws, lead) && lead <= 1000
    ensures IdleChecks(c, ws) <= MAX_CHECKS
  {
    if ws != [] {
      if AfterWakes(c, ws).outcome == Running {
        IdleChecksAreTicks(c, ws);
        if Ticks(ws) >= MAX_CHECKS {
          TicksRunOut(c, ws, lead);
        }
      } else {
        PacedBefore(c, ws, lead);
        IdleChecksAreFew(c, ws[..|ws| - 1], lead);
      }
    }
  }

  // ---------------------------------------------------------------- the loop

  class RetryLoop {
    var now: nat
    var current: string
    var queueIdx: nat
    var lastSwitch: nat
    var nominationOpen: bool
    var outcome: Outcome
    var signals: nat
    ghost var switches: seq<Switch>

    ghost function Now(): State reads this {
      State(now, current, queueIdx, lastSwitch, nominationOpen, outcome, signals, switches)
    }

    constructor (c: Config)
      ensures Now() == Start(c)
    {
      now, current, queueIdx, lastSwitch := 0, c.initial, 0, 0;
      nominationOpen, outcome, signals, switches := true, Running, 0, [];
    }

    method SwitchEndpoint(ghost origin: Origin, to: string, lag: nat)
      modifies this
      ensures Now() == Switched(old(Now()), origin, to, old(now), old(now) + lag)
    {
      switches := switches + [Switch(origin, current, to, lastSwitch, now, now + lag)];
      current := to;
      now := now + lag;
      lastSwitch := now;
    }

    method SignalExhaustion()
      modifies this
      ensures Now() == Signalled(old(Now()))
    {
      signals := signals + 1;
      outcome := Exhausted;
    }

    method Adopt(c: Config, w: Wake) returns (checks: bool)
      modifies this
      ensures (Now(), checks) == Adopted(c, old(Now()), w)
    {
      nominationOpen := false;
      if c.nominated == "" || c.nominated == current {
        return false;
      }
      if w.nominationOk {
        SwitchEndpoint(Late, c.nominated, w.adoptLag);
      }
      return true;
    }

    method Check(c: Config, w: Wake)
      requires queueIdx <= |c.queue|
      modifies this
      ensures Now() == Checked(c, old(Now()), w)
    {
      now := now + w.expiryLag;
      if !w.statsOk {
        if now >= MAX_DURATION {
          SignalExhaustion();
        }
        return;
      }
      if w.handshake {
        outcome := Connected;
        return;
      }
      if now >= MAX_DURATION {
        SignalExhaustion();
        return;
      }
      now := now + w.dwellLag;
      if now - lastSwitch >= Dwell(c, current) {
        var candidate, next, ok := NextEndpointCandidate(c.queue, queueIdx, current);
        queueIdx := next;
        if ok {
          if w.switchOk {
            SwitchEndpoint(Queue(next - 1), candidate, w.switchLag);
          }
        } else {
          SignalExhaustion();
        }
      }
    }

    method Turn(c: Config, w: Wake)
      requires queueIdx <= |c.queue|
      modifies this
      ensures Now() == Pass(c, old(Now()), w)
    {
      if outcome != Running || (w.kind == Nominated && !nominationOpen) {
        return;
      }
      now := now + w.wait;
      match w.kind {
        case ContextDone =>
          outcome := Stopped;
        case Nominated =>
          TakeNomination(c, w);
        case Tick =>
          Check(c, w);
      }
    }

    method TakeNomination(c: Config, w: Wake)
      requires queueIdx <= |c.queue|
      modifies this
      ensures Now() == AfterNomination(c, old(Now()), w)
    {
      var checks := Adopt(c, w);
      if checks {
        Check(c, w);
      }
    }

    method RetryEndpointOnHandshakeTimeout(c: Config, ws: seq<Wake>)
      requires Now() == Start(c)
      modifies this
      ensures Now() == AfterWakes(c, ws)
    {
      for i := 0 to |ws|
        invariant Now() == AfterWakes(c, ws[..i])
      {
        assert ws[..i + 1][..i] == ws[..i];
        Turn(c, ws[i]);
      }
      assert ws[..|ws|] == ws;
    }
  }
}
