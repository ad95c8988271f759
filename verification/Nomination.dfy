/** The master-driven nomination tracker of nomination.go.

    The tracker counts, for every remote tuple, how far the master has got in a fixed
    sequence of wait values. `Meaning` says what its fields mean as a statement about the
    whole history of calls: progress is the longest prefix of the sequence that can be
    embedded, as a subsequence, in the values one tuple sent. */
module Nomination {

  const WAITS: seq<int> := [2000, 1000, 500, 250, 125]

  datatype Event = Observe(addr: string, wait: int) | Activate

  /** The fields the mutex guards; `closes` counts how often the selection channel is closed
      (a second close panics). */
  datatype Tracker = Tracker(pairs: map<string, nat>, active: bool, selected: string, closes: nat)

  const INIT := Tracker(map[], false, "", 0)

  function Progress(t: Tracker, addr: string): nat {
    if addr in t.pairs then t.pairs[addr] else 0
  }

  function AfterObserve(t: Tracker, addr: string, wait: int): Tracker {
    var k := Progress(t, addr);
    var t1 := t.(pairs := t.pairs[addr := k]);
    if t.selected != "" || k >= |WAITS| || wait != WAITS[k] then
      t1
    else
      var t2 := t1.(pairs := t.pairs[addr := k + 1]);
      if k + 1 == |WAITS| && t.active then t2.(selected := addr, closes := t.closes + 1) else t2
  }

  /** The addresses whose sequence is complete. */
  function Complete(t: Tracker): set<string> {
    set addr | addr in t.pairs && t.pairs[addr] == |WAITS|
  }

  /** `activate` ranges over a map, so it may pick any complete address. */
  ghost predicate AfterActivate(t: Tracker, t': Tracker) {
    if t.active then t' == t
    else if Complete(t) == {} then t' == t.(active := true)
    else exists addr | addr in Complete(t) ::
        t' == t.(active := true, selected := addr, closes := t.closes + 1)
  }

  ghost predicate Next(t: Tracker, e: Event, t': Tracker) {
    match e
    case Observe(addr, wait) => t' == AfterObserve(t, addr, wait)
    case Activate => AfterActivate(t, t')
  }

  // ---------------------------------------------------------------- what a history means

  ghost predicate EmbedsAt(p: seq<int>, s: seq<int>, f: seq<int>) {
    && |f| == |p|
    && (forall i | 0 <= i < |f| :: 0 <= f[i] < |s| && s[f[i]] == p[i])
    && (forall i, j | 0 <= i < j < |f| :: f[i] < f[j])
  }

  /** `p` is a (not necessarily contiguous) subsequence of `s`. */
  ghost predicate Embeds(p: seq<int>, s: seq<int>) {
    exists f: seq<int> :: EmbedsAt(p, s, f)
  }

  /** The wait values one address sent, in order. */
  function Values(h: seq<Event>, addr: string): seq<int> {
    if h == [] then []
    else
      var e := h[|h| - 1];
      var before := Values(h[..|h| - 1], addr);
      if e.Observe? && e.addr == addr then before + [e.wait] else before
  }

  /** The master has sent `addr`'s whole sequence. */
  ghost predicate Done(h: seq<Event>, addr: string) {
    Embeds(WAITS, Values(h, addr))
  }

  ghost predicate Selectable(h: seq<Event>) {
    Activate in h && exists addr :: Done(h, addr)
  }

  /** The history up to and including the call that makes a selection possible. */
  ghost function Live(h: seq<Event>): seq<Event> {
    if h == [] then []
    else if Selectable(Live(h[..|h| - 1])) then Live(h[..|h| - 1])
    else h
  }

  ghost predicate Meaning(t: Tracker, h: seq<Event>) {
    && (t.active <==> Activate in h)
    && (t.selected != "" <==> Selectable(h))
    && t.closes == (if Selectable(h) then 1 else 0)
    && (Selectable(h) ==> Done(Live(h), t.selected))
    && (forall addr :: Progress(t, addr) <= |WAITS|)
    && (forall addr, k | 0 <= k <= |WAITS| ::
          k <= Progress(t, addr) <==> Embeds(WAITS[..k], Values(Live(h), addr)))
  }

  ghost predicate NamesPresent(h: seq<Event>) {
    forall e | e in h :: e.Observe? ==> e.addr != ""
  }

  // ---------------------------------------------------------------- greedy matching is exact

  /** How far a left-to-right scan that ignores wrong values gets. */
  function Matched(s: seq<int>): (k: nat)
    ensures k <= |WAITS|
  {
    if s == [] then 0
    else
      var k := Matched(s[..|s| - 1]);
      if k < |WAITS| && s[|s| - 1] == WAITS[k] then k + 1 else k
  }

  lemma {:induction false} GreedyEmbeds(s: seq<int>)
    ensures Embeds(WAITS[..Matched(s)], s)
  {
    if s == [] {
      assert EmbedsAt([], s, []);
    } else {
      var s0 := s[..|s| - 1];
      GreedyEmbeds(s0);
      var f :| EmbedsAt(WAITS[..Matched(s0)], s0, f);
      if Matched(s) == Matched(s0) {
        assert EmbedsAt(WAITS[..Matched(s)], s, f);
      } else {
        assert EmbedsAt(WAITS[..Matched(s)], s, f + [|s| - 1]);
      }
    }
  }

  lemma {:induction false} GreedyIsLongest(s: seq<int>, k: nat)
    requires k <= |WAITS| && Embeds(WAITS[..k], s)
    ensures k <= Matched(s)
  {
    if k > 0 {
      var f :| EmbedsAt(WAITS[..k], s, f);
      assert 0 <= f[k - 1] < |s| && s[f[k - 1]] == WAITS[k - 1];
      var s0 := s[..|s| - 1];
      if f[k - 1] == |s| - 1 {
        assert EmbedsAt(WAITS[..k - 1], s0, f[..k - 1]);
        GreedyIsLongest(s0, k - 1);
      } else {
        assert EmbedsAt(WAITS[..k], s0, f);
        GreedyIsLongest(s0, k);
      }
    }
  }

  /** The prefixes that embed are exactly those the scan has passed. */
  lemma {:induction false} GreedyExact(s: seq<int>, k: nat)
    requires k <= |WAITS|
    ensures Embeds(WAITS[..k], s) <==> k <= Matched(s)
  {
    GreedyEmbeds(s);
    if k <= Matched(s) {
      var f :| EmbedsAt(WAITS[..Matched(s)], s, f);
      assert EmbedsAt(WAITS[..k], s, f[..k]);
    }
    if Embeds(WAITS[..k], s) {
      GreedyIsLongest(s, k);
    }
  }

  lemma DoneExact(h: seq<Event>, addr: string)
    ensures Done(h, addr) <==> Matched(Values(h, addr)) == |WAITS|
  {
    GreedyExact(Values(h, addr), |WAITS|);
    assert WAITS[..|WAITS|] == WAITS;
  }

  // ---------------------------------------------------------------- one call

  lemma Snoc(h: seq<Event>, e: Event, addr: string)
    ensures (h + [e])[..|h|] == h
    ensures Values(h + [e], addr)
         == if e.Observe? && e.addr == addr then Values(h, addr) + [e.wait] else Values(h, addr)
    ensures Matched(Values(h, addr)) <= Matched(Values(h + [e], addr))
  {
    assert (h + [e])[..|h|] == h;
    var v := Values(h, addr);
    if e.Observe? && e.addr == addr {
      assert (v + [e.wait])[..|v|] == v;
    }
  }

  /** Once a history allows a selection, so does every longer one. */
  lemma SelectableSnoc(h: seq<Event>, e: Event)
    requires Selectable(h)
    ensures Selectable(h + [e])
  {
    var addr :| Done(h, addr);
    Snoc(h, e, addr);
    DoneExact(h, addr);
    DoneExact(h + [e], addr);
  }

  lemma {:induction false} LiveIsEnough(h: seq<Event>)
    ensures Selectable(Live(h)) <==> Selectable(h)
    ensures !Selectable(h) ==> Live(h) == h
  {
    if h != [] {
      var h0 := h[..|h| - 1];
      LiveIsEnough(h0);
      assert h == h0 + [h[|h| - 1]];
      if Selectable(h0) {
        SelectableSnoc(h0, h[|h| - 1]);
      }
    }
  }

  lemma ProgressIsMatched(t: Tracker, h: seq<Event>, addr: string)
    requires Meaning(t, h)
    ensures Progress(t, addr) == Matched(Values(Live(h), addr))
  {
    var v := Values(Live(h), addr);
    GreedyExact(v, Matched(v));
    GreedyExact(v, Progress(t, addr));
  }

  /** Rebuilds the quantified part of `Meaning` from the scan. */
  lemma MeaningFromScan(t: Tracker, h: seq<Event>)
    requires t.active <==> Activate in h
    requires t.selected != "" <==> Selectable(h)
    requires t.closes == (if Selectable(h) then 1 else 0)
    requires Selectable(h) ==> Matched(Values(Live(h), t.selected)) == |WAITS|
    requires forall addr :: Progress(t, addr) == Matched(Values(Live(h), addr))
    ensures Meaning(t, h)
  {
    DoneExact(Live(h), t.selected);
    forall addr, k | 0 <= k <= |WAITS|
      ensures k <= Progress(t, addr) <==> Embeds(WAITS[..k], Values(Live(h), addr))
    {
      GreedyExact(Values(Live(h), addr), k);
    }
  }

  /** A call that comes after the selection leaves the meaning of the fields alone. */
  lemma FrozenStep(t: Tracker, h: seq<Event>, e: Event, t': Tracker)
    requires Meaning(t, h) && Selectable(h) && Next(t, e, t')
    ensures Meaning(t', h + [e]) && t'.selected == t.selected
  {
    SelectableSnoc(h, e);
    LiveIsEnough(h);
    assert (h + [e])[..|h|] == h;
    assert Live(h + [e]) == Live(h);
    forall addr ensures Progress(t', addr) == Matched(Values(Live(h), addr)) {
      ProgressIsMatched(t, h, addr);
    }
    DoneExact(Live(h), t.selected);
    MeaningFromScan(t', h + [e]);
  }

  /** A live history still tracks every scan. */
  lemma LiveScan(t: Tracker, h: seq<Event>, addr: string)
    requires Meaning(t, h) && !Selectable(h)
    ensures Progress(t, addr) == Matched(Values(h, addr))
    ensures Done(h, addr) <==> Progress(t, addr) == |WAITS|
  {
    LiveIsEnough(h);
    ProgressIsMatched(t, h, addr);
    DoneExact(h, addr);
  }

  lemma LiveSnoc(h: seq<Event>, e: Event)
    requires !Selectable(h)
    ensures Live(h + [e]) == h + [e]
  {
    LiveIsEnough(h);
    assert (h + [e])[..|h|] == h;
  }

  lemma ObserveScan(t: Tracker, h: seq<Event>, addr: string, wait: int, a: string)
    requires Meaning(t, h) && !Selectable(h)
    ensures var t', h' := AfterObserve(t, addr, wait), h + [Observe(addr, wait)];
      && Progress(t', a) == Matched(Values(h', a))
      && (Done(h', a) <==> Progress(t', a) == |WAITS|)
  {
    var h' := h + [Observe(addr, wait)];
    LiveScan(t, h, a);
    Snoc(h, Observe(addr, wait), a);
    DoneExact(h', a);
    if a == addr {
      assert Values(h', a)[..|Values(h, a)|] == Values(h, a);
    }
  }

  lemma ObserveStep(t: Tracker, h: seq<Event>, addr: string, wait: int)
    requires Meaning(t, h) && !Selectable(h) && addr != ""
    ensures Meaning(AfterObserve(t, addr, wait), h + [Observe(addr, wait)])
  {
    var t', h' := AfterObserve(t, addr, wait), h + [Observe(addr, wait)];
    LiveSnoc(h, Observe(addr, wait));
    forall a
      ensures Done(h, a) <==> Progress(t, a) == |WAITS|
      ensures Progress(t', a) == Matched(Values(h', a))
      ensures Done(h', a) <==> Progress(t', a) == |WAITS|
    {
      LiveScan(t, h, a);
      ObserveScan(t, h, addr, wait, a);
    }
    assert forall a :: a != addr ==> Progress(t', a) == Progress(t, a);
    if t'.closes > t.closes {
      assert Done(h', addr);
    }
    MeaningFromScan(t', h');
  }

  lemma ActivateStep(t: Tracker, h: seq<Event>, t': Tracker)
    requires Meaning(t, h) && !Selectable(h) && NamesPresent(h) && AfterActivate(t, t')
    ensures Meaning(t', h + [Activate])
  {
    var h' := h + [Activate];
    LiveSnoc(h, Activate);
    NoAnonymousProgress(h);
    forall a
      ensures Progress(t', a) == Matched(Values(h', a))
      ensures Done(h, a) <==> a in Complete(t)
      ensures Done(h', a) <==> a in Complete(t)
      ensures a in Complete(t) ==> a != ""
    {
      LiveScan(t, h, a);
      Snoc(h, Activate, a);
      DoneExact(h', a);
    }
    assert Activate in h';
    if t.selected == "" && t'.selected != "" {
      assert Done(h', t'.selected);
    }
    MeaningFromScan(t', h');
  }

  lemma {:induction false} NoAnonymousProgress(h: seq<Event>)
    requires NamesPresent(h)
    ensures Values(h, "") == []
  {
    if h != [] {
      assert h[|h| - 1] in h;
      NoAnonymousProgress(h[..|h| - 1]);
    }
  }

  /** Every call keeps the meaning of the fields, and a selection is final. */
  lemma StepKeepsMeaning(t: Tracker, h: seq<Event>, e: Event, t': Tracker)
    requires Meaning(t, h) && Next(t, e, t') && NamesPresent(h + [e])
    ensures Meaning(t', h + [e])
    ensures t.selected != "" ==> t'.selected == t.selected && t'.closes == t.closes
  {
    assert e in h + [e];
    assert forall x | x in h :: x in h + [e];
    if Selectable(h) {
      FrozenStep(t, h, e, t');
    } else if e.Observe? {
      ObserveStep(t, h, e.addr, e.wait);
    } else {
      ActivateStep(t, h, t');
    }
  }

  // ---------------------------------------------------------------- whole runs

  function Front(h: seq<Event>): seq<Event>
    requires h != []
  {
    h[..|h| - 1]
  }

  ghost predicate Run(h: seq<Event>, t: Tracker) {
    if h == [] then t == INIT
    else exists t0 :: Run(Front(h), t0) && Next(t0, h[|h| - 1], t)
  }

  lemma InitMeaning()
    ensures Meaning(INIT, [])
  {
    forall addr ensures Progress(INIT, addr) == Matched(Values(Live([]), addr)) {}
    MeaningFromScan(INIT, []);
  }

  /** For every history of calls with non-empty addresses and every way `activate` may choose. */
  lemma {:induction false} RunMeaning(h: seq<Event>, t: Tracker)
    requires NamesPresent(h) && Run(h, t)
    ensures Meaning(t, h)
  {
    if h == [] {
      InitMeaning();
    } else {
      var h0, e := Front(h), h[|h| - 1];
      var t0 :| Run(h0, t0) && Next(t0, e, t);
      assert h == h0 + [e];
      RunMeaning(h0, t0);
      StepKeepsMeaning(t0, h0, e, t);
    }
  }

  ghost predicate Over(addrs: set<string>, h: seq<Event>) {
    forall e | e in h :: e.Observe? ==> e.addr in addrs
  }

  /** The channel has been closed once if something is selected, and never otherwise. */
  predicate ClosedWithSelection(t: Tracker) {
    t.closes == if t.selected != "" then 1 else 0
  }

  /** The empty address doubles as the "nothing selected" mark, so the close is tied to the
      selection exactly when no tuple is named by the empty string. */
  lemma ClosedWithSelectionIff(addrs: set<string>)
    ensures (forall h, t | Over(addrs, h) && Run(h, t) :: ClosedWithSelection(t))
       <==> "" !in addrs
  {
    if "" in addrs {
      var h, t := EmptyNameRun();
      assert Over(addrs, h) && Run(h, t) && !ClosedWithSelection(t);
    } else {
      forall h, t | Over(addrs, h) && Run(h, t) ensures ClosedWithSelection(t) {
        RunMeaning(h, t);
      }
    }
  }

  lemma RunSnoc(h: seq<Event>, t: Tracker, e: Event, t': Tracker)
    requires Run(h, t) && Next(t, e, t')
    ensures Run(h + [e], t')
  {
    assert Front(h + [e]) == h;
  }

  lemma EmptyNameRun() returns (h: seq<Event>, t: Tracker)
    ensures Run(h, t) && !ClosedWithSelection(t)
    ensures forall e | e in h :: e.Observe? ==> e.addr == ""
  {
    h, t := [Activate], INIT.(active := true);
    assert Complete(INIT) == {};
    RunSnoc([], INIT, Activate, t);
    for i := 0 to 5
      invariant Run(h, t)
      invariant forall e | e in h :: e.Observe? ==> e.addr == ""
      invariant t.active && t.selected == "" && Progress(t, "") == i
      invariant t.closes == if i == 5 then 1 else 0
    {
      var t' := AfterObserve(t, "", WAITS[i]);
      RunSnoc(h, t, Observe("", WAITS[i]), t');
      h, t := h + [Observe("", WAITS[i])], t';
    }
  }

  // ---------------------------------------------------------------- the tracker object

  class NominationTracker {
    var pairs: map<string, nat>
    var active: bool
    var selected: string
    var closes: nat
    ghost var history: seq<Event>

    ghost function State(): Tracker reads this {
      Tracker(pairs, active, selected, closes)
    }

    ghost predicate Valid() reads this {
      NamesPresent(history) ==> Meaning(State(), history)
    }

    constructor ()
      ensures Valid() && State() == INIT && history == []
    {
      pairs, active, selected, closes, history := map[], false, "", 0, [];
      new;
      InitMeaning();
    }

    /** Returns whether this call completed the sequence for `addr` and so selected it. */
    method Observe(addr: string, waitMs: int) returns (sel: bool)
      requires Valid()
      modifies this
      ensures Valid() && history == old(history) + [Event.Observe(addr, waitMs)]
      ensures State() == AfterObserve(old(State()), addr, waitMs)
      ensures sel <==> closes > old(closes)
      ensures sel ==> selected == addr
      ensures old(selected) != "" ==> selected == old(selected) && !sel
    {
      ghost var before := State();
      if addr !in pairs {
        pairs := pairs[addr := 0];
      }
      var p := pairs[addr];
      sel := false;
      if selected == "" && p < |WAITS| && waitMs == WAITS[p] {
        p := p + 1;
        pairs := pairs[addr := p];
        if p == |WAITS| && active {
          selected := addr;
          closes := closes + 1;
          sel := true;
        }
      }
      RecordStep(before, Event.Observe(addr, waitMs));
      history := history + [Event.Observe(addr, waitMs)];
    }

    /** Lets a completed sequence select an endpoint; progress made earlier is kept. */
    method ActivateTracker()
      requires Valid()
      modifies this
      ensures Valid() && history == old(history) + [Activate]
      ensures AfterActivate(old(State()), State())
      ensures old(selected) != "" && old(active) ==> selected == old(selected)
    {
      ghost var before := State();
      if !active {
        active := true;
        var rest := pairs.Keys;
        while rest != {}
          invariant rest <= pairs.Keys
          invariant State() == before.(active := true)
          invariant forall addr | addr in pairs.Keys - rest :: pairs[addr] != |WAITS|
          decreases rest
        {
          var addr :| addr in rest;
          rest := rest - {addr};
          if pairs[addr] == |WAITS| {
            assert addr in Complete(before);
            selected := addr;
            closes := closes + 1;
            break;
          }
        }
      }
      RecordStep(before, Activate);
      history := history + [Activate];
    }

    lemma RecordStep(before: Tracker, e: Event)
      requires NamesPresent(history) ==> Meaning(before, history)
      requires Next(before, e, State())
      ensures NamesPresent(history + [e]) ==> Meaning(State(), history + [e])
    {
      if NamesPresent(history + [e]) {
        assert forall x | x in history :: x in history + [e];
        StepKeepsMeaning(before, history, e, State());
      }
    }
  }
}
