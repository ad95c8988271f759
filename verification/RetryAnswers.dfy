/** What one turn of the timed endpoint retry of tunnel.go does to the endpoint in use, stated on the
    turn's inputs, and that no endpoint of the queue is left out. */
module RetryAnswers {
  import opened EndpointRetry
  import opened Candidates

  /** Position `k` is the first from where the queue has been used up that holds another endpoint. */
  predicate NextInQueue(c: Config, s: State, k: nat) {
    && s.queueIdx <= k < |c.queue| && c.queue[k] != "" && c.queue[k] != s.current
    && forall i | s.queueIdx <= i < k :: c.queue[i] == "" || c.queue[i] == s.current
  }

  /** The tick finds statistics without a handshake, before sixty seconds, and the dwell over. */
  predicate TimeToSwitch(c: Config, s: State, w: Wake) {
    && w.statsOk && !w.handshake && s.now + w.wait + w.expiryLag < 60_000
    && s.now + w.wait + w.expiryLag + w.dwellLag - s.lastSwitch >= Dwell(c, s.current)
  }

  lemma NextIsUsable(c: Config, s: State, k: nat)
    requires s.queueIdx <= |c.queue|
    ensures NextInQueue(c, s, k) <==> k == NextUsable(c.queue, s.queueIdx, s.current) && k < |c.queue|
  {
    var n := NextUsable(c.queue, s.queueIdx, s.current);
    if NextInQueue(c, s, k) {
      assert Usable(c.queue[k], s.current);
      assert n < |c.queue| ==> Usable(c.queue[n], s.current);
    }
    if k == n && k < |c.queue| {
      forall i | s.queueIdx <= i < k ensures c.queue[i] == "" || c.queue[i] == s.current {
        assert !Usable(c.queue[i], s.current);
      }
    }
  }

  /** When it is time, the tick goes to the next endpoint of the queue; if the switch fails, that one
      position is used up and nothing else moves. */
  lemma TickSwitches(c: Config, s: State, w: Wake, k: nat)
    requires s.queueIdx <= |c.queue| && s.outcome == Running && w.kind == Tick
    requires TimeToSwitch(c, s, w) && NextInQueue(c, s, k)
    ensures var t, decided := Pass(c, s, w), s.now + w.wait + w.expiryLag + w.dwellLag;
      && t.queueIdx == k + 1 && t.outcome == Running && t.nominationOpen == s.nominationOpen && t.signals == s.signals
      && if w.switchOk then
           && t.current == c.queue[k] && t.lastSwitch == t.now == decided + w.switchLag
           && t.switches == s.switches + [Switch(Queue(k), s.current, c.queue[k], s.lastSwitch, decided, t.now)]
         else t.current == s.current && t.lastSwitch == s.lastSwitch && t.switches == s.switches && t.now == decided
  {
    NextIsUsable(c, s, k);
  }

  /** Otherwise it neither switches nor, unless it is time and nothing is left, uses up the queue. */
  lemma TickStays(c: Config, s: State, w: Wake)
    requires s.queueIdx <= |c.queue| && s.outcome == Running && w.kind == Tick
    requires !TimeToSwitch(c, s, w) || forall k: nat :: !NextInQueue(c, s, k)
    ensures var t := Pass(c, s, w);
      && t.current == s.current && t.lastSwitch == s.lastSwitch && t.switches == s.switches
      && t.queueIdx == (if TimeToSwitch(c, s, w) then |c.queue| else s.queueIdx)
  {
    var k := NextUsable(c.queue, s.queueIdx, s.current);
    NextIsUsable(c, s, k);
  }

  /** A tick switches exactly if it is time, an endpoint is left and the switch succeeds. */
  lemma TickSwitchesExactly(c: Config, s: State, w: Wake)
    requires s.queueIdx <= |c.queue| && s.outcome == Running && w.kind == Tick
    ensures Pass(c, s, w).switches != s.switches <==>
      TimeToSwitch(c, s, w) && w.switchOk && exists k: nat :: NextInQueue(c, s, k)
  {
    if k: nat :| NextInQueue(c, s, k) && TimeToSwitch(c, s, w) {
      TickSwitches(c, s, w, k);
    } else {
      TickStays(c, s, w);
    }
  }

  /** The loop is content exactly when a check finds a handshake, and stops for a context that is done. */
  lemma TickConnectsExactly(c: Config, s: State, w: Wake)
    requires s.queueIdx <= |c.queue| && s.outcome == Running
    ensures w.kind == Tick ==> (Pass(c, s, w).outcome == Connected <==> w.statsOk && w.handshake)
    ensures w.kind == ContextDone ==> Pass(c, s, w).outcome == Stopped
    ensures Pass(c, s, w).outcome == Stopped ==> w.kind == ContextDone
  {
  }

  /** The late nomination is taken up exactly if it is the first, names another endpoint and the switch
      succeeds; it is spent in any case. */
  lemma NominationSwitchesExactly(c: Config, s: State, w: Wake)
    requires s.queueIdx <= |c.queue| && s.outcome == Running && w.kind == Nominated
    ensures var t := Pass(c, s, w);
      if !s.nominationOpen then t == s
      else
        && !t.nominationOpen
        && if c.nominated != "" && c.nominated != s.current && w.nominationOk then
             var at := s.now + w.wait + w.adoptLag;
             s.switches + [Switch(Late, s.current, c.nominated, s.lastSwitch, s.now + w.wait, at)] <= t.switches
           else forall i | |s.switches| <= i < |t.switches| :: t.switches[i].origin != Late
  {
    if s.nominationOpen {
      var (s1, checks) := Adopted(c, Woken(s, w), w);
      if checks {
        CheckedAppends(c, s1, w);
      }
    }
  }

  lemma CheckedAppends(c: Config, s: State, w: Wake)
    requires s.queueIdx <= |c.queue|
    ensures var t := Checked(c, s, w);
      && s.switches <= t.switches && t.nominationOpen == s.nominationOpen
      && forall i | |s.switches| <= i < |t.switches| :: t.switches[i].origin != Late
  {
  }

  // ---------------------------------------------------------------- no endpoint is left out

  predicate WasInUse(c: Config, s: State, addr: string) {
    addr == c.initial || exists i | 0 <= i < |s.switches| :: s.switches[i].to == addr
  }

  /** Every endpoint in the part of the queue that is used up has been in use. */
  predicate AllUsed(c: Config, s: State) {
    && s.queueIdx <= |c.queue| && WasInUse(c, s, s.current)
    && forall k | 0 <= k < s.queueIdx :: c.queue[k] == "" || WasInUse(c, s, c.queue[k])
  }

  lemma UseStays(c: Config, s: State, t: State, addr: string)
    requires s.switches <= t.switches && WasInUse(c, s, addr)
    ensures WasInUse(c, t, addr)
  {
    if i :| 0 <= i < |s.switches| && s.switches[i].to == addr {
      assert t.switches[i] == s.switches[i];
    }
  }

  /** From `s` to `t` the queue is used up past entries that are empty or in use, and no further. */
  lemma AllUsedGoesOn(c: Config, s: State, t: State)
    requires AllUsed(c, s) && s.switches <= t.switches && s.queueIdx <= t.queueIdx <= |c.queue|
    requires WasInUse(c, t, t.current)
    requires forall k | s.queueIdx <= k < t.queueIdx :: c.queue[k] == "" || c.queue[k] == s.current || c.queue[k] == t.current
    ensures AllUsed(c, t)
  {
    forall k | 0 <= k < t.queueIdx ensures c.queue[k] == "" || WasInUse(c, t, c.queue[k]) {
      if k < s.queueIdx && c.queue[k] != "" {
        UseStays(c, s, t, c.queue[k]);
      }
      UseStays(c, s, t, s.current);
    }
  }

  lemma SwitchedInUse(c: Config, s: State, t: State, sw: Switch)
    requires t.switches == s.switches + [sw] && t.current == sw.to
    ensures WasInUse(c, t, t.current)
  {
    assert t.switches[|s.switches|].to == t.current;
  }

  lemma CheckUsesAll(c: Config, s: State, w: Wake)
    requires AllUsed(c, s) && w.switchOk
    ensures AllUsed(c, Checked(c, s, w))
  {
    var t := Checked(c, s, w);
    var n := NextUsable(c.queue, s.queueIdx, s.current);
    if t.switches != s.switches {
      SwitchedInUse(c, s, t, t.switches[|s.switches|]);
    }
    AllUsedGoesOn(c, s, t);
  }

  lemma AdoptionUsesAll(c: Config, s: State, w: Wake)
    requires AllUsed(c, s)
    ensures AllUsed(c, Adopted(c, s, w).0)
  {
    var t := Adopted(c, s, w).0;
    if t.switches != s.switches {
      SwitchedInUse(c, s, t, t.switches[|s.switches|]);
    }
    AllUsedGoesOn(c, s, t);
  }

  lemma PassUsesAll(c: Config, s: State, w: Wake)
    requires AllUsed(c, s) && w.switchOk
    ensures AllUsed(c, Pass(c, s, w))
  {
    if Wakes(s, w) {
      var s1 := Woken(s, w);
      AllUsedGoesOn(c, s, s1);
      match w.kind
      case ContextDone => AllUsedGoesOn(c, s1, s1.(outcome := Stopped));
      case Nominated =>
        AdoptionUsesAll(c, s1, w);
        if Adopted(c, s1, w).1 {
          CheckUsesAll(c, Adopted(c, s1, w).0, w);
        }
      case Tick => CheckUsesAll(c, s1, w);
    }
  }

  /** In every run in which queue switches succeed, no endpoint is passed over: each one in the part of
      the queue that is used up has been in use. */
  lemma {:induction false} NonePassedOver(c: Config, ws: seq<Wake>)
    requires forall i | 0 <= i < |ws| :: ws[i].switchOk
    ensures AllUsed(c, AfterWakes(c, ws))
  {
    if ws != [] {
      NonePassedOver(c, ws[..|ws| - 1]);
      PassUsesAll(c, AfterWakes(c, ws[..|ws| - 1]), ws[|ws| - 1]);
    }
  }

  /** A loop that gives up did so after sixty seconds or with the whole queue used up. */
  lemma {:induction false} GivesUpLate(c: Config, ws: seq<Wake>)
    ensures var s := AfterWakes(c, ws); s.outcome == Exhausted ==> s.now >= 60_000 || s.queueIdx == |c.queue|
  {
    if ws != [] {
      GivesUpLate(c, ws[..|ws| - 1]);
      var s, w := AfterWakes(c, ws[..|ws| - 1]), ws[|ws| - 1];
      if s.outcome == Running {
        GivingUp(c, s, w);
      }
    }
  }

  lemma GivingUp(c: Config, s: State, w: Wake)
    requires s.queueIdx <= |c.queue| && s.outcome == Running
    ensures var t := Pass(c, s, w); t.outcome == Exhausted ==> t.now >= 60_000 || t.queueIdx == |c.queue|
  {
  }

  /** So before sixty seconds the loop gives up only when every endpoint it was given has been in use. */
  lemma EveryEndpointHasItsTurn(c: Config, ws: seq<Wake>, addr: string)
    requires forall i | 0 <= i < |ws| :: ws[i].switchOk
    requires AfterWakes(c, ws).outcome == Exhausted && AfterWakes(c, ws).now < 60_000
    requires addr in c.queue && addr != ""
    ensures WasInUse(c, AfterWakes(c, ws), addr)
  {
    NonePassedOver(c, ws);
    GivesUpLate(c, ws);
    var k :| 0 <= k < |c.queue| && c.queue[k] == addr;
  }

  // ---------------------------------------------------------------- the dwells

  /** A relay gets twenty-five seconds, any other public address six and a private one three. */
  lemma DwellMeaning(c: Config, addr: string)
    ensures Dwell(c, addr) == 25_000 <==> addr in c.types && c.types[addr] == "turn"
    ensures Dwell(c, addr) == 6_000 <==> !(addr in c.types && c.types[addr] == "turn") && c.look(addr).public
    ensures Dwell(c, addr) in {3_000, 6_000, 25_000}
  {
  }
}
