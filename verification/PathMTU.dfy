/** The path-MTU search of peermtu.go, an adaptation of RFC 8899, section 5.2.

    `Prober` and the functions on it are the specification; `PeerMTUProber` is the object, each of
    whose methods is proved against them. `Meaning` says what the fields mean in terms of the
    probe outcomes accepted since the search began. */
module PathMTU {

  const BASE_MTU := 1280
  const DEFAULT_MILESTONES: seq<int> := [1360, 1400, 1420, 1440]
  const MAX_PROBES: nat := 2  // RFC 8899, section 5.1.2

  datatype Phase = Base | Searching | SearchComplete | Disabled

  datatype Prober = Prober(
    phase: Phase,
    milestones: seq<int>,
    currentIndex: nat,
    confirmed: int,
    failed: nat,
    manual: bool,
    armed: bool)

  datatype Verdict = Verdict(changed: bool, mtu: int, done: bool)

  /** The milestones not above `limit`. */
  function UpTo(ms: seq<int>, limit: int): seq<int> {
    if ms == [] then []
    else if ms[|ms| - 1] <= limit then UpTo(ms[..|ms| - 1], limit) + [ms[|ms| - 1]]
    else UpTo(ms[..|ms| - 1], limit)
  }

  /** One past the last milestone not above `confirmed`. */
  function StartIndex(ms: seq<int>, confirmed: int): (k: nat)
    ensures k <= |ms|
  {
    if ms == [] then 0
    else if ms[|ms| - 1] <= confirmed then |ms|
    else StartIndex(ms[..|ms| - 1], confirmed)
  }

  function AtLeastBase(mtu: int): int { if mtu < BASE_MTU then BASE_MTU else mtu }

  function NewProber(initialMTU: int, maxTargetMTU: int, manualMTU: int): Prober {
    if manualMTU > 0 then Prober(Disabled, [], 0, manualMTU, 0, true, false)
    else
      var ms := UpTo(DEFAULT_MILESTONES, AtLeastBase(maxTargetMTU));
      var confirmed := AtLeastBase(initialMTU);
      var k := StartIndex(ms, confirmed);
      Prober(if k >= |ms| then SearchComplete else Searching, ms, k, confirmed, 0, false, true)
  }

  predicate HasTarget(p: Prober) {
    p.armed && p.phase == Searching && p.currentIndex < |p.milestones|
  }

  /** Whether a result for `target` is about the milestone being probed. */
  predicate Accepts(p: Prober, target: int) {
    p.phase == Searching && p.currentIndex < |p.milestones| && p.milestones[p.currentIndex] == target
  }

  function AfterResult(p: Prober, target: int, success: bool): Prober {
    if !Accepts(p, target) then p
    else if success then
      var k := p.currentIndex + 1;
      p.(failed := 0, confirmed := target, currentIndex := k,
         phase := if k >= |p.milestones| then SearchComplete else Searching)
    else
      p.(failed := p.failed + 1, phase := if p.failed + 1 >= MAX_PROBES then SearchComplete else Searching)
  }

  function AfterArm(p: Prober): Prober { p.(armed := true) }

  function AfterReset(p: Prober): Prober {
    if p.manual then p
    else p.(phase := Searching, confirmed := BASE_MTU, currentIndex := 0, failed := 0, armed := false)
  }

  // ---------------------------------------------------------------- the invariant

  predicate Inv(p: Prober) {
    if p.manual then p.phase == Disabled && p.milestones == [] && p.failed == 0
    else
      && p.phase in {Searching, SearchComplete}
      && p.milestones <= DEFAULT_MILESTONES
      && p.currentIndex <= |p.milestones|
      && BASE_MTU <= p.confirmed
      && (p.currentIndex < |p.milestones| ==> p.confirmed < p.milestones[p.currentIndex])
      && p.failed <= MAX_PROBES
      && (p.phase == Searching ==> p.failed < MAX_PROBES)
  }

  lemma Rising(i: nat)
    requires i < |DEFAULT_MILESTONES|
    ensures BASE_MTU < DEFAULT_MILESTONES[i]
    ensures forall j | i < j < |DEFAULT_MILESTONES| :: DEFAULT_MILESTONES[i] < DEFAULT_MILESTONES[j]
  {
  }

  /** The default milestones rise, so those within a limit are the first few. */
  lemma {:induction false} UpToMeaning(n: nat, limit: int)
    requires n <= |DEFAULT_MILESTONES|
    ensures var ms := UpTo(DEFAULT_MILESTONES[..n], limit);
      && ms <= DEFAULT_MILESTONES[..n]
      && forall i | 0 <= i < n :: i < |ms| <==> DEFAULT_MILESTONES[i] <= limit
  {
    if n > 0 {
      UpToMeaning(n - 1, limit);
      assert DEFAULT_MILESTONES[..n][..n - 1] == DEFAULT_MILESTONES[..n - 1];
      forall i | 0 <= i < n - 1 ensures DEFAULT_MILESTONES[i] < DEFAULT_MILESTONES[n - 1] {
        Rising(i);
      }
    }
  }

  lemma {:induction false} StartIndexMeaning(ms: seq<int>, confirmed: int)
    requires ms <= DEFAULT_MILESTONES
    ensures var k := StartIndex(ms, confirmed);
      forall i | 0 <= i < |ms| :: i < k <==> ms[i] <= confirmed
  {
    if ms != [] {
      if ms[|ms| - 1] <= confirmed {
        forall i | 0 <= i < |ms| ensures ms[i] <= confirmed {
          Rising(i);
        }
      } else {
        StartIndexMeaning(ms[..|ms| - 1], confirmed);
      }
    }
  }

  lemma NewProberInv(initialMTU: int, maxTargetMTU: int, manualMTU: int)
    ensures var p := NewProber(initialMTU, maxTargetMTU, manualMTU);
      && Inv(p)
      && (manualMTU <= 0 ==> forall i | 0 <= i < |p.milestones| :: BASE_MTU < p.milestones[i] <= maxTargetMTU)
      && (manualMTU <= 0 && initialMTU <= BASE_MTU ==> p.confirmed == BASE_MTU && p.currentIndex == 0)
  {
    var limit := AtLeastBase(maxTargetMTU);
    var ms := UpTo(DEFAULT_MILESTONES, limit);
    assert DEFAULT_MILESTONES[..|DEFAULT_MILESTONES|] == DEFAULT_MILESTONES;
    UpToMeaning(|DEFAULT_MILESTONES|, limit);
    StartIndexMeaning(ms, AtLeastBase(initialMTU));
    forall i | 0 <= i < |ms| ensures BASE_MTU < ms[i] == DEFAULT_MILESTONES[i] <= limit {
      Rising(i);
    }
    if initialMTU <= BASE_MTU && ms != [] {
      assert ms[0] > BASE_MTU;
    }
  }

  /** An automatic prober starts at the initial MTU, or 1280 if that is less, with every default milestone
      within the ceiling, at the first one above where it starts; it searches if there is such a one. */
  lemma NewProberExactly(initialMTU: int, maxTargetMTU: int, i: nat)
    requires i < |DEFAULT_MILESTONES|
    ensures var p, m := NewProber(initialMTU, maxTargetMTU, 0), DEFAULT_MILESTONES[i];
      && !p.manual && p.armed && p.failed == 0
      && p.confirmed == (if initialMTU < 1280 then 1280 else initialMTU)
      && (i < |p.milestones| <==> m <= maxTargetMTU) && (i < |p.milestones| ==> p.milestones[i] == m)
      && (i < |p.milestones| ==> (i < p.currentIndex <==> m <= p.confirmed))
      && (p.phase == Searching <==> p.currentIndex < |p.milestones|)
  {
    var limit := AtLeastBase(maxTargetMTU);
    UpToMeaning(|DEFAULT_MILESTONES|, limit);
    assert DEFAULT_MILESTONES[..|DEFAULT_MILESTONES|] == DEFAULT_MILESTONES;
    StartIndexMeaning(UpTo(DEFAULT_MILESTONES, limit), AtLeastBase(initialMTU));
    Rising(i);
  }

  /** A configured MTU is kept as it is and nothing is searched. */
  lemma ManualProberExactly(initialMTU: int, maxTargetMTU: int, manualMTU: int)
    requires manualMTU > 0
    ensures var p := NewProber(initialMTU, maxTargetMTU, manualMTU);
      p.manual && p.confirmed == manualMTU && p.phase == Disabled && p.milestones == []
  {
  }

  lemma OperationsKeepInv(p: Prober, target: int, success: bool)
    requires Inv(p)
    ensures Inv(AfterResult(p, target, success)) && Inv(AfterArm(p)) && Inv(AfterReset(p))
  {
    if p.milestones != [] {
      assert p.milestones[0] == DEFAULT_MILESTONES[0];
    }
    if Accepts(p, target) && p.currentIndex + 1 < |p.milestones| {
      Rising(p.currentIndex);
    }
  }

  // ---------------------------------------------------------------- what a search means

  /** A search: where it began, with which confirmed MTU, and the outcomes it accepted. */
  datatype Search = Search(start: nat, baseline: int, outcomes: seq<bool>)

  /** Milestones answered one after another, each after at most one failure: `slow[i]` says
      whether milestone `i` failed once first. */
  function Answered(slow: seq<bool>): seq<bool> {
    if slow == [] then []
    else Answered(slow[..|slow| - 1]) + (if slow[|slow| - 1] then [false, true] else [true])
  }

  function Failures(n: nat): seq<bool> {
    seq(n, _ => false)
  }

  /** The confirmed MTU is the top of the milestones answered so far, or the baseline; the search
      is over exactly when one milestone has failed twice or none is left. */
  ghost predicate ReadsAs(p: Prober, s: Search, slow: seq<bool>) {
    && s.outcomes == Answered(slow) + Failures(p.failed)
    && p.currentIndex == s.start + |slow| <= |p.milestones|
    && p.confirmed == (if slow == [] then s.baseline else p.milestones[p.currentIndex - 1])
    && (p.milestones != [] ==>
          (p.phase == SearchComplete <==> p.failed == MAX_PROBES || p.currentIndex == |p.milestones|))
  }

  ghost predicate Meaning(p: Prober, s: Search) {
    !p.manual ==> exists slow :: ReadsAs(p, s, slow)
  }

  ghost predicate Sound(p: Prober, s: Search) {
    Inv(p) && Meaning(p, s)
  }

  function Record(p: Prober, s: Search, target: int, success: bool): Search {
    if Accepts(p, target) then s.(outcomes := s.outcomes + [success]) else s
  }

  lemma NewProberMeaning(initialMTU: int, maxTargetMTU: int, manualMTU: int)
    ensures var p := NewProber(initialMTU, maxTargetMTU, manualMTU);
      Meaning(p, Search(p.currentIndex, p.confirmed, []))
  {
    var p := NewProber(initialMTU, maxTargetMTU, manualMTU);
    if !p.manual {
      assert ReadsAs(p, Search(p.currentIndex, p.confirmed, []), []);
    }
  }

  lemma SuccessReads(p: Prober, s: Search, slow: seq<bool>, target: int)
    requires !p.manual && Inv(p) && ReadsAs(p, s, slow) && Accepts(p, target)
    ensures ReadsAs(AfterResult(p, target, true), s.(outcomes := s.outcomes + [true]), slow + [p.failed == 1])
  {
    var slow' := slow + [p.failed == 1];
    assert slow'[..|slow|] == slow;
    assert Failures(p.failed) + [true] == if p.failed == 1 then [false, true] else [true];
    calc {
      s.outcomes + [true];
      Answered(slow) + Failures(p.failed) + [true];
      Answered(slow) + (Failures(p.failed) + [true]);
      Answered(slow');
      Answered(slow') + Failures(0);
    }
  }

  lemma FailureReads(p: Prober, s: Search, slow: seq<bool>, target: int)
    requires !p.manual && Inv(p) && ReadsAs(p, s, slow) && Accepts(p, target)
    ensures ReadsAs(AfterResult(p, target, false), s.(outcomes := s.outcomes + [false]), slow)
  {
    assert Failures(p.failed) + [false] == Failures(p.failed + 1);
    assert Answered(slow) + Failures(p.failed) + [false] == Answered(slow) + (Failures(p.failed) + [false]);
  }

  lemma ResultKeepsMeaning(p: Prober, s: Search, target: int, success: bool)
    requires Inv(p) && Meaning(p, s)
    ensures Meaning(AfterResult(p, target, success), Record(p, s, target, success))
  {
    if Accepts(p, target) && !p.manual {
      var slow :| ReadsAs(p, s, slow);
      if success {
        SuccessReads(p, s, slow, target);
      } else {
        FailureReads(p, s, slow, target);
      }
    }
  }

  lemma ResetMeaning(p: Prober)
    requires Inv(p)
    ensures Meaning(AfterReset(p), Search(0, BASE_MTU, []))
  {
    if !p.manual {
      assert ReadsAs(AfterReset(p), Search(0, BASE_MTU, []), []);
    }
  }

  /** A reset prober, once armed, has something to probe exactly when it has milestones; without
      them it stays in the searching phase for good. */
  lemma ResetHasTarget(p: Prober)
    requires Inv(p) && !p.manual
    ensures !HasTarget(AfterReset(p))
    ensures HasTarget(AfterArm(AfterReset(p))) <==> p.milestones != []
    ensures AfterReset(p).phase == Searching
  {
  }

  /** For good: no sequence of operations ends that search or finds it a target. */
  lemma {:induction false} SearchesInVain(p: Prober, ops: seq<Operation>)
    requires Inv(p) && !p.manual && p.milestones == []
    ensures var q := AfterOperations(AfterReset(p), ops);
      q.phase == Searching && q.milestones == [] && !q.manual && !HasTarget(q)
  {
    if ops != [] {
      SearchesInVain(p, ops[..|ops| - 1]);
    }
  }

  // ---------------------------------------------------------------- progress

  function ResultsLeft(p: Prober): int {
    2 * (|p.milestones| - p.currentIndex) - p.failed
  }

  /** Every accepted result brings the end nearer; every accepted success raises the confirmed
      MTU; a stale result changes nothing. */
  lemma ResultMakesProgress(p: Prober, target: int, success: bool)
    requires Inv(p)
    ensures var p' := AfterResult(p, target, success);
      if Accepts(p, target) then
        && 0 <= ResultsLeft(p') < ResultsLeft(p)
        && (if success then p.confirmed < p'.confirmed == target else p'.confirmed == p.confirmed)
      else p' == p
  {
  }

  /** The prober after a whole sequence of results. */
  function AfterResults(p: Prober, results: seq<(int, bool)>): Prober {
    if results == [] then p
    else
      var last := results[|results| - 1];
      AfterResult(AfterResults(p, results[..|results| - 1]), last.0, last.1)
  }

  function AcceptedCount(p: Prober, results: seq<(int, bool)>): nat {
    if results == [] then 0
    else
      var before := results[..|results| - 1];
      AcceptedCount(p, before) + if Accepts(AfterResults(p, before), results[|results| - 1].0) then 1 else 0
  }

  /** Between resets the confirmed MTU never falls, and at most two results per milestone count. */
  lemma {:induction false} SearchEnds(p: Prober, results: seq<(int, bool)>)
    requires Inv(p) && !p.manual
    ensures var p' := AfterResults(p, results);
      && Inv(p') && !p'.manual && p'.milestones == p.milestones
      && p.confirmed <= p'.confirmed
      && AcceptedCount(p, results) + ResultsLeft(p') <= ResultsLeft(p) <= 2 * |p.milestones|
      && (AcceptedCount(p, results) > 0 ==> ResultsLeft(p') >= 0)
  {
    if results != [] {
      var before, last := results[..|results| - 1], results[|results| - 1];
      SearchEnds(p, before);
      ResultMakesProgress(AfterResults(p, before), last.0, last.1);
      OperationsKeepInv(AfterResults(p, before), last.0, last.1);
    }
  }

  // ---------------------------------------------------------------- a manual prober

  datatype Operation = Result(target: int, success: bool) | Arm | Reset

  function AfterOperations(p: Prober, ops: seq<Operation>): Prober {
    if ops == [] then p
    else
      var q := AfterOperations(p, ops[..|ops| - 1]);
      match ops[|ops| - 1]
      case Result(target, success) => AfterResult(q, target, success)
      case Arm => AfterArm(q)
      case Reset => AfterReset(q)
  }

  /** A manually configured prober never changes what it confirms or offers. It is left entirely
      alone exactly when it is not armed: arming sets its flag, to no effect. */
  lemma {:induction false} ManualProberStays(p: Prober, ops: seq<Operation>)
    requires Inv(p) && p.manual
    ensures AfterOperations(p, ops) == p.(armed := p.armed || Arm in ops)
    ensures AfterOperations(p, ops) == p <==> p.armed || Arm !in ops
    ensures !HasTarget(AfterOperations(p, ops))
  {
    if ops != [] {
      ManualProberStays(p, ops[..|ops| - 1]);
      assert ops == ops[..|ops| - 1] + [ops[|ops| - 1]];
    }
  }

  // ---------------------------------------------------------------- the prober object

  method MilestonesUpTo(limit: int) returns (ms: seq<int>)
    ensures ms == UpTo(DEFAULT_MILESTONES, limit)
  {
    ms := [];
    for i := 0 to |DEFAULT_MILESTONES|
      invariant ms == UpTo(DEFAULT_MILESTONES[..i], limit)
    {
      assert DEFAULT_MILESTONES[..i + 1][..i] == DEFAULT_MILESTONES[..i];
      if DEFAULT_MILESTONES[i] <= limit {
        ms := ms + [DEFAULT_MILESTONES[i]];
      }
    }
    assert DEFAULT_MILESTONES[..|DEFAULT_MILESTONES|] == DEFAULT_MILESTONES;
  }

  method FirstAbove(ms: seq<int>, confirmed: int) returns (k: nat)
    ensures k == StartIndex(ms, confirmed)
  {
    k := 0;
    for i := 0 to |ms|
      invariant k == StartIndex(ms[..i], confirmed)
    {
      assert ms[..i + 1][..i] == ms[..i];
      if ms[i] <= confirmed {
        k := i + 1;
      }
    }
    assert ms[..|ms|] == ms;
  }

  class PeerMTUProber {
    var phase: Phase
    var milestones: seq<int>
    var currentIndex: nat
    var confirmed: int
    var failed: nat
    var manual: bool
    var armed: bool
    ghost var search: Search  // the outcomes accepted since construction or the last reset

    ghost function State(): Prober reads this {
      Prober(phase, milestones, currentIndex, confirmed, failed, manual, armed)
    }

    ghost predicate Valid() reads this {
      Sound(State(), search)
    }

    constructor (initialMTU: int, maxTargetMTU: int, manualMTU: int)
      ensures State() == NewProber(initialMTU, maxTargetMTU, manualMTU)
      ensures Valid() && search == Search(currentIndex, confirmed, [])
    {
      NewProberInv(initialMTU, maxTargetMTU, manualMTU);
      NewProberMeaning(initialMTU, maxTargetMTU, manualMTU);
      failed := 0;
      if manualMTU > 0 {
        phase, milestones, currentIndex, confirmed := Disabled, [], 0, manualMTU;
        manual, armed := true, false;
        search := Search(0, manualMTU, []);
      } else {
        var limit := AtLeastBase(maxTargetMTU);
        var candidates := MilestonesUpTo(limit);
        var start := AtLeastBase(initialMTU);
        var k := FirstAbove(candidates, start);
        phase := if k >= |candidates| then SearchComplete else Searching;
        milestones, currentIndex, confirmed := candidates, k, start;
        manual, armed := false, true;
        search := Search(k, start, []);
      }
    }

    method ArmProber()
      requires Valid()
      modifies this
      ensures Valid() && State() == AfterArm(old(State())) && search == old(search)
    {
      if !manual {
        ghost var was :| ReadsAs(State(), search, was);
        armed := true;
        assert ReadsAs(State(), search, was);
      } else {
        armed := true;
      }
    }

    method NextProbeMTU() returns (target: int, ok: bool)
      requires Valid()
      ensures ok <==> HasTarget(State())
      ensures ok ==> Accepts(State(), target) && target > confirmed
      ensures !ok ==> target == 0
    {
      if !armed || phase != Searching || currentIndex >= |milestones| {
        return 0, false;
      }
      return milestones[currentIndex], true;
    }

    method RecordProbeResult(target: int, success: bool) returns (v: Verdict)
      requires Valid()
      modifies this
      ensures Valid() && State() == AfterResult(old(State()), target, success)
      ensures search == Record(old(State()), old(search), target, success)
      ensures v.mtu == confirmed
      ensures v.changed <==> confirmed > old(confirmed)
      ensures v.done <==> phase != Searching
    {
      ghost var before, oldSearch := State(), search;
      ResultKeepsMeaning(before, oldSearch, target, success);
      OperationsKeepInv(before, target, success);
      search := Record(before, oldSearch, target, success);
      if phase != Searching {
        return Verdict(false, confirmed, true);
      }
      if currentIndex >= |milestones| || milestones[currentIndex] != target {
        return Verdict(false, confirmed, false);
      }
      if success {
        failed := 0;
        var changed := target > confirmed;
        confirmed := target;
        currentIndex := currentIndex + 1;
        if currentIndex >= |milestones| {
          phase := SearchComplete;
          return Verdict(changed, confirmed, true);
        }
        return Verdict(changed, confirmed, false);
      }
      failed := failed + 1;
      if failed >= MAX_PROBES {
        phase := SearchComplete;
        return Verdict(false, confirmed, true);
      }
      return Verdict(false, confirmed, false);
    }

    method ResetProber()
      requires Valid()
      modifies this
      ensures Valid() && State() == AfterReset(old(State()))
      ensures search == if manual then old(search) else Search(0, BASE_MTU, [])
    {
      if manual {
        return;
      }
      ghost var before := State();
      ResetMeaning(before);
      OperationsKeepInv(before, 0, false);
      phase := Searching;
      confirmed := BASE_MTU;
      currentIndex := 0;
      failed := 0;
      armed := false;
      search := Search(0, BASE_MTU, []);
    }
  }
}
