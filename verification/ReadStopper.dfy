/** The hand-over of the outer UDP sockets: `udpReadStopper.Stop` of nomination.go against the
    goroutines that read those sockets, as interleaved atomic steps.

    A reader polls `done`, blocks in a read, hands on the packet it got, and polls again. The
    fallback probe's readers hand packets to a bounded channel; the nomination listener's handle
    them in place. `Stop` runs its body once: close `done`, put both read deadlines in the past,
    wait for every reader, clear both deadlines. Later and concurrent callers wait for that body. */
module ReadStopper {
  import opened Totals

  datatype Family = V4 | V6

  datatype ReaderPc = Polling | Reading | Holding | Exited

  /** `taken` and `handed` count the packets read from the socket, and handed on, since `done`
      was closed. */
  datatype Reader = Reader(family: Family, toChannel: bool, pc: ReaderPc, taken: nat, handed: nat)

  /** How far the once-only body of `Stop` has got. */
  datatype Body = NotBegun | Closing | ArmingV4 | ArmingV6 | Waiting | ClearingV4 | ClearingV6 | Finished

  datatype Caller = Before | Calling | Returned

  datatype State = State(
    readers: seq<Reader>,
    done: bool,
    expiredV4: bool,
    expiredV6: bool,
    body: Body,
    callers: seq<Caller>,
    queued: nat,
    capacity: nat)

  predicate Expired(s: State, f: Family) {
    match f case V4 => s.expiredV4 case V6 => s.expiredV6
  }

  datatype Step =
    | Poll(i: nat)       // the reader looks at `done`
    | Packet(i: nat)     // a datagram reaches a blocked read
    | ReadFails(i: nat)  // the read fails for a reason of its own
    | Expire(i: nat)     // the read fails because its deadline has passed
    | HandOn(i: nat)
    | Abandon(i: nat)    // a send to a full channel gives way to `done`
    | Consume            // the prober takes a response
    | Call(c: nat)
    | Begin(c: nat)      // a caller enters the once-only body
    | Advance            // the body's next statement
    | Return(c: nat)

  predicate Bump(r: Reader, r': Reader, done: bool, pc: ReaderPc, taken: nat, handed: nat) {
    r' == r.(pc := pc,
             taken := r.taken + (if done then taken else 0),
             handed := r.handed + (if done then handed else 0))
  }

  /** Reader `i` moves and nothing else changes, except perhaps the channel's length. */
  predicate ReaderMoves(s: State, s': State, i: nat, pc: ReaderPc, taken: nat, handed: nat, queued: nat) {
    && i < |s.readers| == |s'.readers|
    && Bump(s.readers[i], s'.readers[i], s.done, pc, taken, handed)
    && s' == s.(readers := s.readers[i := s'.readers[i]], queued := queued)
  }

  predicate AllExited(s: State) {
    forall i | 0 <= i < |s.readers| :: s.readers[i].pc == Exited
  }

  predicate Advances(s: State, s': State) {
    match s.body
    case Closing => s' == s.(body := ArmingV4, done := true)
    case ArmingV4 => s' == s.(body := ArmingV6, expiredV4 := true)
    case ArmingV6 => s' == s.(body := Waiting, expiredV6 := true)
    case Waiting => AllExited(s) && s' == s.(body := ClearingV4)
    case ClearingV4 => s' == s.(body := ClearingV6, expiredV4 := false)
    case ClearingV6 => s' == s.(body := Finished, expiredV6 := false)
    case _ => false
  }

  predicate Takes(s: State, step: Step, s': State) {
    match step
    case Poll(i) =>
      i < |s.readers| && s.readers[i].pc == Polling
      && ReaderMoves(s, s', i, if s.done then Exited else Reading, 0, 0, s.queued)
    case Packet(i) =>
      i < |s.readers| && s.readers[i].pc == Reading && ReaderMoves(s, s', i, Holding, 1, 0, s.queued)
    case ReadFails(i) =>
      i < |s.readers| && s.readers[i].pc == Reading && ReaderMoves(s, s', i, Exited, 0, 0, s.queued)
    case Expire(i) =>
      i < |s.readers| && s.readers[i].pc == Reading && Expired(s, s.readers[i].family)
      && ReaderMoves(s, s', i, Exited, 0, 0, s.queued)
    case HandOn(i) =>
      i < |s.readers| && s.readers[i].pc == Holding
      && (s.readers[i].toChannel ==> s.queued < s.capacity)
      && ReaderMoves(s, s', i, Polling, 0, 1, if s.readers[i].toChannel then s.queued + 1 else s.queued)
    case Abandon(i) =>
      i < |s.readers| && s.readers[i].pc == Holding && s.readers[i].toChannel && s.done
      && ReaderMoves(s, s', i, Exited, 0, 0, s.queued)
    case Consume => s.queued > 0 && s' == s.(queued := s.queued - 1)
    case Call(c) =>
      c < |s.callers| && s.callers[c] == Before && s' == s.(callers := s.callers[c := Calling])
    case Begin(c) =>
      c < |s.callers| && s.callers[c] == Calling && s.body == NotBegun && s' == s.(body := Closing)
    case Advance => Advances(s, s')
    case Return(c) =>
      c < |s.callers| && s.callers[c] == Calling && s.body == Finished
      && s' == s.(callers := s.callers[c := Returned])
  }

  ghost predicate Next(s: State, s': State) {
    exists step :: Takes(s, step, s')
  }

  predicate Init(s: State) {
    && (forall i | 0 <= i < |s.readers| ::
          s.readers[i].pc == Polling && s.readers[i].taken == 0 && s.readers[i].handed == 0)
    && !s.done && !s.expiredV4 && !s.expiredV6
    && s.body == NotBegun
    && (forall c | 0 <= c < |s.callers| :: s.callers[c] == Before)
    && s.queued == 0
  }

  // ---------------------------------------------------------------- the invariant

  predicate ReaderInv(r: Reader, done: bool) {
    && (!done ==> r.taken == 0 && r.handed == 0)
    && r.taken <= 1 && r.handed <= 1
    && (r.pc == Reading ==> r.taken == 0 && r.handed == 0)
    && (r.pc == Holding ==> r.handed == 0)
  }

  predicate BodyInv(s: State) {
    && (s.done <==> !s.body.NotBegun? && !s.body.Closing?)
    && (s.expiredV4 <==> s.body in {ArmingV6, Waiting, ClearingV4})
    && (s.expiredV6 <==> s.body in {Waiting, ClearingV4, ClearingV6})
    && (s.body in {ClearingV4, ClearingV6, Finished} ==> AllExited(s))
    && (forall c | 0 <= c < |s.callers| :: s.callers[c] == Returned ==> s.body == Finished)
  }

  predicate Inv(s: State) {
    BodyInv(s) && forall i | 0 <= i < |s.readers| :: ReaderInv(s.readers[i], s.done)
  }

  predicate ReaderStep(step: Step) {
    step.Poll? || step.Packet? || step.ReadFails? || step.Expire? || step.HandOn? || step.Abandon?
  }

  lemma ReaderStepKeepsInv(s: State, step: Step, s': State)
    requires Inv(s) && Takes(s, step, s')
    requires ReaderStep(step)
    ensures Inv(s')
  {
    var i := step.i;
    assert ReaderInv(s.readers[i], s.done);
    assert ReaderInv(s'.readers[i], s.done);
    assert s'.readers == s.readers[i := s'.readers[i]];
    assert s.readers[i].pc != Exited;
    assert !AllExited(s);
  }

  lemma StepKeepsInv(s: State, s': State)
    requires Inv(s) && Next(s, s')
    ensures Inv(s')
  {
    var step :| Takes(s, step, s');
    match step
    case Consume =>
    case Call(c) =>
    case Begin(c) =>
    case Advance =>
      forall i | 0 <= i < |s'.readers| ensures ReaderInv(s'.readers[i], s'.done) {
        assert ReaderInv(s.readers[i], s.done);
      }
    case Return(c) =>
    case _ => ReaderStepKeepsInv(s, step, s');
  }

  /** Consecutive states of one interleaving. */
  ghost predicate Run(run: seq<State>) {
    && run != []
    && forall i | 0 <= i < |run| - 1 :: Next(run[i], run[i + 1])
  }

  lemma {:induction false} RunKeepsInv(run: seq<State>, k: nat)
    requires Run(run) && Inv(run[0]) && k < |run|
    ensures Inv(run[k])
  {
    if k > 0 {
      RunKeepsInv(run, k - 1);
      assert Next(run[k - 1], run[k - 1 + 1]);
      StepKeepsInv(run[k - 1], run[k]);
    }
  }

  /** Whatever the interleaving: a reader takes and hands on at most one packet after `done` is
      closed, and a `Stop` that has returned leaves no live reader and no read deadline. */
  lemma StopIsSafe(run: seq<State>, k: nat)
    requires Run(run) && Init(run[0]) && k < |run|
    ensures forall i | 0 <= i < |run[k].readers| ::
              run[k].readers[i].taken <= 1 && run[k].readers[i].handed <= 1
    ensures Returned in run[k].callers ==>
              AllExited(run[k]) && run[k].done && !run[k].expiredV4 && !run[k].expiredV6
  {
    RunKeepsInv(run, k);
    assert forall i | 0 <= i < |run[k].readers| :: ReaderInv(run[k].readers[i], run[k].done);
  }

  /** Once the body has finished no step touches the sockets, the readers or `done`: a further
      `Stop` only returns. */
  lemma RepeatedStopChangesNothing(s: State, s': State)
    requires Inv(s) && s.body == Finished && Next(s, s')
    ensures s' == s.(callers := s'.callers, queued := s'.queued)
    ensures s'.queued <= s.queued
  {
    var step :| Takes(s, step, s');
  }

  // ---------------------------------------------------------------- Stop ends

  function PcWeight(r: Reader): nat {
    match r.pc case Reading => 6 case Holding => 4 case Polling => 2 case Exited => 0
  }

  function CallerWeight(c: Caller): nat {
    match c case Before => 2 case Calling => 1 case Returned => 0
  }

  function BodyWeight(b: Body): nat {
    match b
    case NotBegun => 7 case Closing => 6 case ArmingV4 => 5 case ArmingV6 => 4
    case Waiting => 3 case ClearingV4 => 2 case ClearingV6 => 1 case Finished => 0
  }

  /** How many steps can still be taken once `done` is closed. */
  function StepsLeft(s: State): nat {
    Total(PcWeight, s.readers) + s.queued + BodyWeight(s.body) + Total(CallerWeight, s.callers)
  }

  lemma ReaderUsesUp(s: State, step: Step, s': State)
    requires s.done && ReaderStep(step) && Takes(s, step, s')
    ensures s'.done && StepsLeft(s') < StepsLeft(s)
  {
    var i := step.i;
    assert s'.queued <= s.queued + 1 && PcWeight(s'.readers[i]) + 2 <= PcWeight(s.readers[i]);
    TotalUpdate(PcWeight, s.readers, i, s'.readers[i]);
  }

  lemma StepUsesUp(s: State, s': State)
    requires Inv(s) && s.done && Next(s, s')
    ensures s'.done && StepsLeft(s') < StepsLeft(s)
  {
    var step :| Takes(s, step, s');
    if ReaderStep(step) {
      ReaderUsesUp(s, step, s');
    } else if step.Call? {
      TotalUpdate(CallerWeight, s.callers, step.c, Calling);
    } else if step.Return? {
      TotalUpdate(CallerWeight, s.callers, step.c, Returned);
    }
  }

  /** How often reader `i` moves in a run. */
  ghost function Moves(run: seq<State>, i: nat): nat
    requires forall k | 0 <= k < |run| :: i < |run[k].readers|
  {
    if |run| < 2 then 0
    else (if run[0].readers[i] != run[1].readers[i] then 1 else 0) + Moves(run[1..], i)
  }

  lemma RunTail(run: seq<State>)
    requires Run(run) && |run| > 1
    ensures Next(run[0], run[1]) && Run(run[1..])
  {
    assert Next(run[0], run[0 + 1]);
    forall i | 0 <= i < |run[1..]| - 1 ensures Next(run[1..][i], run[1..][i + 1]) {
      assert Next(run[i + 1], run[i + 1 + 1]);
    }
  }

  lemma ReaderGoesOn(s: State, s': State, i: nat)
    requires Inv(s) && s.done && Next(s, s') && i < |s.readers|
    ensures Inv(s') && s'.done && i < |s'.readers|
    ensures s'.readers[i] == s.readers[i] || PcWeight(s'.readers[i]) + 2 <= PcWeight(s.readers[i])
  {
    StepKeepsInv(s, s');
    var step :| Takes(s, step, s');
  }

  /** Once `done` is closed a reader has at most three moves left, however it is interleaved. */
  lemma {:induction false} ReaderExitsSoon(run: seq<State>, i: nat)
    requires Run(run) && Inv(run[0]) && run[0].done && i < |run[0].readers|
    ensures forall k | 0 <= k < |run| :: i < |run[k].readers|
    ensures 2 * Moves(run, i) <= PcWeight(run[0].readers[i]) <= 6
    decreases |run|
  {
    if |run| > 1 {
      RunTail(run);
      ReaderGoesOn(run[0], run[1], i);
      ReaderExitsSoon(run[1..], i);
      forall k | 0 <= k < |run| ensures i < |run[k].readers| {
        assert k > 0 ==> run[k] == run[1..][k - 1];
      }
    }
  }

  /** A step that needs neither a datagram nor a consumer of the channel. */
  predicate OwnStep(step: Step) {
    !step.Packet? && !step.ReadFails? && !step.Consume? && !step.Call?
  }

  ghost predicate CanMove(s: State) {
    exists step, s' :: OwnStep(step) && Takes(s, step, s')
  }

  predicate Settled(s: State) {
    AllExited(s) && s.body == Finished && Calling !in s.callers
  }

  function Moved(s: State, i: nat, pc: ReaderPc, handed: nat, queued: nat): State
    requires i < |s.readers|
  {
    var r := s.readers[i].(pc := pc, handed := s.readers[i].handed + (if s.done then handed else 0));
    s.(readers := s.readers[i := r], queued := queued)
  }

  /** A reader that is still live after both deadlines are set can always move by itself, even one
      that is blocked in a read or on a full channel. */
  lemma LiveReaderMoves(s: State, i: nat)
    requires Inv(s) && s.body == Waiting && i < |s.readers| && s.readers[i].pc != Exited
    ensures CanMove(s)
  {
    var r := s.readers[i];
    var move :=
      if r.pc == Polling then (Poll(i), Moved(s, i, Exited, 0, s.queued))
      else if r.pc == Reading then (Expire(i), Moved(s, i, Exited, 0, s.queued))
      else if r.toChannel then (Abandon(i), Moved(s, i, Exited, 0, s.queued))
      else (HandOn(i), Moved(s, i, Polling, 1, s.queued));
    assert OwnStep(move.0) && Takes(s, move.0, move.1);
  }

  lemma NeverStuck(s: State)
    requires Inv(s) && s.done && !Settled(s)
    ensures CanMove(s)
  {
    match s.body {
      case ArmingV4 => assert Takes(s, Advance, s.(body := ArmingV6, expiredV4 := true));
      case ArmingV6 => assert Takes(s, Advance, s.(body := Waiting, expiredV6 := true));
      case Waiting =>
        if AllExited(s) {
          assert Takes(s, Advance, s.(body := ClearingV4));
        } else {
          var i :| 0 <= i < |s.readers| && s.readers[i].pc != Exited;
          LiveReaderMoves(s, i);
        }
      case ClearingV4 => assert Takes(s, Advance, s.(body := ClearingV6, expiredV4 := false));
      case ClearingV6 => assert Takes(s, Advance, s.(body := Finished, expiredV6 := false));
      case Finished =>
        var c :| 0 <= c < |s.callers| && s.callers[c] == Calling;
        assert Takes(s, Return(c), s.(callers := s.callers[c := Returned]));
      case _ =>
    }
  }

  /** From the moment `done` is closed every interleaving is finite, with a bound known in
      advance, and one that can go no further by itself has joined every reader and released
      every caller. */
  lemma {:induction false} StopEnds(run: seq<State>)
    requires Run(run) && Inv(run[0]) && run[0].done
    ensures |run| - 1 <= StepsLeft(run[0])
    ensures !CanMove(run[|run| - 1]) ==> Settled(run[|run| - 1])
    decreases |run|
  {
    if |run| == 1 {
      if !Settled(run[0]) {
        NeverStuck(run[0]);
      }
    } else {
      RunTail(run);
      StepKeepsInv(run[0], run[1]);
      StepUsesUp(run[0], run[1]);
      StopEnds(run[1..]);
    }
  }
}
