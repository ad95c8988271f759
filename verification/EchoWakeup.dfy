/** Cancelling `waitForEchoResponse` of udpecho.go, as interleaved atomic steps.

    The loop plans a read deadline, arms it, looks at the context and blocks in a read. When the
    context is cancelled a callback on a goroutine of its own puts the deadline at the present.
    The two write the same deadline, so the order "arm, then look" matters. `Order` makes that
    order a parameter: the source's is ArmThenCheck. */
module EchoWakeup {

  datatype Order = ArmThenCheck | CheckThenArm

  /** Where the loop is. The middle two points are visited in the given order. */
  datatype Pc = Top | Planned | Halfway | Reading | Left

  datatype Callback = Idle | Pending | Ran

  datatype State = State(
    pc: Pc,
    now: nat,
    planned: nat,
    deadline: nat,
    cancelled: bool,
    callback: Callback)

  datatype Config = Config(order: Order, ceiling: nat, retryInterval: nat, isStartup: bool)

  datatype Step =
    | Tick          // time passes
    | Cancel
    | RunCallback
    | Plan          // read the clock, give up at the ceiling
    | First
    | Second        // arm and check, in the configured order
    | Packet(matches: bool)
    | TimeOut
    | ReadFails

  function Min(a: nat, b: nat): nat { if a < b then a else b }

  function Arm(s: State, pc: Pc): State { s.(deadline := s.planned, pc := pc) }

  function Check(s: State, pc: Pc): State { s.(pc := if s.cancelled then Left else pc) }

  predicate Takes(c: Config, s: State, step: Step, s': State) {
    match step
    case Tick => s' == s.(now := s.now + 1)
    case Cancel => !s.cancelled && s' == s.(cancelled := true, callback := Pending)
    case RunCallback => s.callback == Pending && s' == s.(callback := Ran, deadline := s.now)
    case Plan => s.pc == Top
      && s' == if s.now >= c.ceiling then s.(pc := Left)
               else s.(pc := Planned, planned := Min(s.now + c.retryInterval, c.ceiling))
    case First => s.pc == Planned
      && s' == if c.order == ArmThenCheck then Arm(s, Halfway) else Check(s, Halfway)
    case Second => s.pc == Halfway
      && s' == if c.order == ArmThenCheck then Check(s, Reading) else Arm(s, Reading)
    case Packet(matches) => s.pc == Reading && s' == s.(pc := if matches then Left else Top)
    case TimeOut => s.pc == Reading && s.deadline <= s.now
      && s' == s.(pc := if s.cancelled || !c.isStartup then Left else Top)
    case ReadFails => s.pc == Reading && s' == s.(pc := Left)
  }

  ghost predicate Next(c: Config, s: State, s': State) {
    exists step :: Takes(c, s, step, s')
  }

  predicate Init(s: State) {
    s.pc == Top && (s.callback == if s.cancelled then Pending else Idle)
  }

  ghost predicate Run(c: Config, run: seq<State>) {
    && run != []
    && forall i | 0 <= i < |run| - 1 :: Next(c, run[i], run[i + 1])
  }

  ghost predicate Reachable(c: Config, s: State) {
    exists run :: Run(c, run) && Init(run[0]) && run[|run| - 1] == s
  }

  /** Blocked in a read armed with a future deadline although the wait has been cancelled and the
      callback that should end the read has come and gone. */
  predicate LostWakeup(s: State) {
    s.pc == Reading && s.cancelled && s.callback == Ran && s.deadline > s.now
  }

  // ---------------------------------------------------------------- safety

  predicate Inv(s: State) {
    && (s.callback == Idle <==> !s.cancelled)
    && (s.pc == Reading && s.callback == Ran ==> s.deadline <= s.now)
  }

  lemma StepKeepsInv(c: Config, s: State, s': State)
    requires c.order == ArmThenCheck && Inv(s) && Next(c, s, s')
    ensures Inv(s') && (s.cancelled ==> s'.cancelled)
  {
    var step :| Takes(c, s, step, s');
  }

  lemma {:induction false} RunKeepsInv(c: Config, run: seq<State>, k: nat)
    requires c.order == ArmThenCheck && Run(c, run) && Inv(run[0]) && k < |run|
    ensures Inv(run[k])
  {
    if k > 0 {
      RunKeepsInv(c, run, k - 1);
      assert Next(c, run[k - 1], run[k - 1 + 1]);
      StepKeepsInv(c, run[k - 1], run[k]);
    }
  }

  /** Against checking first, a cancellation between the check and the arming is lost. */
  lemma CheckFirstLoses(c: Config) returns (run: seq<State>)
    requires c.order == CheckThenArm && c.ceiling > 0 && c.retryInterval > 0
    ensures Run(c, run) && Init(run[0]) && LostWakeup(run[|run| - 1])
  {
    var s0 := State(Top, 0, 0, 0, false, Idle);
    var s1 := s0.(pc := Planned, planned := Min(c.retryInterval, c.ceiling));
    var s2 := s1.(pc := Halfway);
    var s3 := s2.(cancelled := true, callback := Pending);
    var s4 := s3.(callback := Ran, deadline := 0);
    var s5 := s4.(pc := Reading, deadline := s4.planned);
    assert Takes(c, s0, Plan, s1) && Takes(c, s1, First, s2) && Takes(c, s2, Cancel, s3)
        && Takes(c, s3, RunCallback, s4) && Takes(c, s4, Second, s5);
    run := [s0, s1, s2, s3, s4, s5];
  }

  /** No cancellation is lost, under any interleaving, exactly because the deadline is armed
      before the context is checked. */
  lemma NoLostWakeupIff(c: Config)
    requires c.ceiling > 0 && c.retryInterval > 0
    ensures (forall s | Reachable(c, s) :: !LostWakeup(s)) <==> c.order == ArmThenCheck
  {
    if c.order == ArmThenCheck {
      forall s | Reachable(c, s) ensures !LostWakeup(s) {
        var run :| Run(c, run) && Init(run[0]) && run[|run| - 1] == s;
        RunKeepsInv(c, run, |run| - 1);
      }
    } else {
      var run := CheckFirstLoses(c);
      assert Reachable(c, run[|run| - 1]);
    }
  }

  // ---------------------------------------------------------------- a cancelled wait ends

  /** How many steps, other than time passing, a cancelled wait can still take. */
  function StepsLeft(s: State): nat {
    (match s.pc case Reading => 4 case Top => 3 case Planned => 2 case Halfway => 1 case Left => 0)
    + (match s.callback case Idle => 2 case Pending => 1 case Ran => 0)
  }

  lemma StepUsesUp(c: Config, s: State, step: Step, s': State)
    requires c.order == ArmThenCheck && Inv(s) && s.cancelled && Takes(c, s, step, s')
    ensures Inv(s') && s'.cancelled
    ensures if step.Tick? then StepsLeft(s') == StepsLeft(s) else StepsLeft(s') < StepsLeft(s)
  {
    StepKeepsInv(c, s, s');
  }

  /** A step of the loop or its callback that waits for nothing: no packet, no clock. */
  ghost predicate CanMove(c: Config, s: State) {
    exists step: Step, s': State :: !step.Tick? && !step.Cancel? && !step.Packet? && !step.ReadFails? && Takes(c, s, step, s')
  }

  lemma CancelledNeverBlocks(c: Config, s: State)
    requires c.order == ArmThenCheck && Inv(s) && s.cancelled && s.pc != Left
    ensures CanMove(c, s)
  {
    if s.callback == Pending {
      assert Takes(c, s, RunCallback, s.(callback := Ran, deadline := s.now));
    } else {
      match s.pc
      case Top =>
        if s.now >= c.ceiling {
          assert Takes(c, s, Plan, s.(pc := Left));
        } else {
          assert Takes(c, s, Plan, s.(pc := Planned, planned := Min(s.now + c.retryInterval, c.ceiling)));
        }
      case Planned => assert Takes(c, s, First, Arm(s, Halfway));
      case Halfway => assert Takes(c, s, Second, Check(s, Reading));
      case Reading => assert Takes(c, s, TimeOut, s.(pc := Left));
    }
  }

  /** The steps of a run during which the clock stands still. */
  ghost function Work(run: seq<State>): nat {
    if |run| < 2 then 0 else (if run[0].now == run[1].now then 1 else 0) + Work(run[1..])
  }

  /** Every interleaving of a cancelled wait does at most six more steps of work, whatever packets
      arrive, and cannot come to rest without having left the loop. */
  lemma {:induction false} CancelledWaitEnds(c: Config, run: seq<State>)
    requires c.order == ArmThenCheck && Run(c, run) && Inv(run[0]) && run[0].cancelled
    ensures Work(run) <= StepsLeft(run[0]) <= 6
    ensures !CanMove(c, run[|run| - 1]) ==> run[|run| - 1].pc == Left
    decreases |run|
  {
    if |run| == 1 {
      if run[0].pc != Left {
        CancelledNeverBlocks(c, run[0]);
      }
    } else {
      assert Next(c, run[0], run[0 + 1]);
      var step :| Takes(c, run[0], step, run[1]);
      StepUsesUp(c, run[0], step, run[1]);
      var rest := run[1..];
      forall i | 0 <= i < |rest| - 1 ensures Next(c, rest[i], rest[i + 1]) {
        assert Next(c, run[i + 1], run[i + 1 + 1]);
      }
      CancelledWaitEnds(c, rest);
    }
  }
}
