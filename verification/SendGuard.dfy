/** The send guard of one page on one channel: the row a worker claims before it calls the vendor, and
    that keeps a redelivered or doubled message from paging the member twice.

    Every await of a worker is its own step, any number of workers interleave, and a worker can die at
    any point; none outlives its function's timeout. Times are whole seconds. */
module SendGuard {
  import opened MemberStatus

  /** `timeout` ends a worker, `stale` is how old a claim must be to be taken over, `visibility` how
      long after a receive the message comes again, and `claimBy` how long after it a worker stamps
      its claim at the latest. */
  datatype Timings = Timings(timeout: nat, stale: nat, visibility: nat, claimBy: nat)

  const STALE_CLAIM_SECONDS: nat := 20

  datatype SendState = CLAIMED | SENT | FAILED

  datatype Guard = Guard(state: SendState, sentAt: nat, failureReason: bool, delivered: bool)

  /** `sentAt` is the time a worker stamped when it set out to claim. */
  datatype Phase =
    | Started
    | Claiming(sentAt: nat)
    | Contested(sentAt: nat)
    | Retaking(sentAt: nat, observed: Guard)
    | Sending(sentAt: nat)
    | Accepted(sentAt: nat)
    | Refused(sentAt: nat)
    | Done(acknowledged: bool)

  datatype Worker = Worker(startedAt: nat, phase: Phase)

  /** `accepted` counts the posts the vendor took, `lostAnswers` those of them whose answer never came
      back, `lostMarks` those that were answered and whose SENT was never written. */
  datatype State = State(
    now: nat,
    guard: Option<Guard>,
    workers: seq<Worker>,
    accepted: nat,
    lostAnswers: nat,
    lostMarks: nat)

  const START := State(0, None, [], 0, 0, 0)

  /** What became of the last post of a call: `AcceptsUnseen` is a vendor that took the page while the
      post timed out, lost its connection or was answered by an error. */
  datatype Answer = Accepts | Refuses | AcceptsUnseen

  /** A post that lost its connection is posted once more, and a refused key is read again once, with
      such a pair of posts of its own. */
  const MAX_LOST_POSTS: nat := 2

  /** What became of a write: `Repeated` is one that took effect but whose answer was lost, so that the
      client sends it again; the worker stays where it is. A SENT that is written twice changes nothing. */
  datatype Write = Written | Lost | Repeated

  datatype Step =
    | Tick(seconds: nat)
    | Receive
    | Stamp(i: nat)
    | Put(i: nat, repeated: bool)
    | ReadGuard(i: nat)
    | Retake(i: nat, repeated: bool)
    | Call(i: nat, lost: nat, answer: Answer)
    | WriteSent(i: nat, written: bool)
    | WriteFailed(i: nat, write: Write)
    | Delivered
    | Die(i: nat)

  predicate IsIn(s: State, i: nat, phase: Phase -> bool) {
    i < |s.workers| && phase(s.workers[i].phase)
  }

  predicate CanStep(t: Timings, s: State, step: Step) {
    match step
    case Tick(seconds) =>
      forall w :: w in s.workers && !w.phase.Done? ==> s.now + seconds <= w.startedAt + t.timeout
    case Receive => true
    case Stamp(i) => IsIn(s, i, (p: Phase) => p.Started?) && s.now <= s.workers[i].startedAt + t.claimBy
    case Put(i, _) => IsIn(s, i, (p: Phase) => p.Claiming?)
    case ReadGuard(i) => IsIn(s, i, (p: Phase) => p.Contested?) && s.guard.Some?
    case Retake(i, _) => IsIn(s, i, (p: Phase) => p.Retaking?) && s.guard.Some?
    case Call(i, lost, _) => IsIn(s, i, (p: Phase) => p.Sending?) && lost <= MAX_LOST_POSTS
    case WriteSent(i, _) => IsIn(s, i, (p: Phase) => p.Accepted?) && s.guard.Some?
    case WriteFailed(i, _) => IsIn(s, i, (p: Phase) => p.Refused?) && s.guard.Some?
    case Delivered => s.accepted > 0 && s.guard.Some?
    case Die(i) => IsIn(s, i, (p: Phase) => !p.Done?)
  }

  /** A claim old enough that the worker that wrote it has ended. */
  predicate Abandoned(t: Timings, g: Guard, sentAt: nat) {
    g.state.CLAIMED? && g.sentAt + t.stale < sentAt
  }

  /** What a worker does about a guard that is there already. */
  function Decide(t: Timings, g: Guard, sentAt: nat): Phase {
    if !g.delivered && (g.failureReason || Abandoned(t, g, sentAt)) then Retaking(sentAt, g) else Done(true)
  }

  /** The condition the claim is taken over under: the state that was read is still there. */
  predicate RetakeHolds(current: Guard, observed: Guard) {
    && !current.delivered
    && if observed.failureReason then current.failureReason
       else current.state.CLAIMED? && current.sentAt == observed.sentAt
  }

  function Claim(sentAt: nat): Guard {
    Guard(CLAIMED, sentAt, false, false)
  }

  function Moved(s: State, i: nat, phase: Phase): State
    requires i < |s.workers|
  {
    s.(workers := s.workers[i := s.workers[i].(phase := phase)])
  }

  function Next(t: Timings, s: State, step: Step): State
    requires CanStep(t, s, step)
  {
    match step
    case Tick(seconds) => s.(now := s.now + seconds)
    case Receive => s.(workers := s.workers + [Worker(s.now, Started)])
    case Stamp(i) => Moved(s, i, Claiming(s.now))
    case Put(i, repeated) =>
      var sentAt := s.workers[i].phase.sentAt;
      if s.guard.None? then
        Moved(s, i, if repeated then Claiming(sentAt) else Sending(sentAt)).(guard := Some(Claim(sentAt)))
      else Moved(s, i, Contested(sentAt))
    case ReadGuard(i) => Moved(s, i, Decide(t, s.guard.value, s.workers[i].phase.sentAt))
    case Retake(i, repeated) =>
      var Retaking(sentAt, observed) := s.workers[i].phase;
      if RetakeHolds(s.guard.value, observed) then
        Moved(s, i, if repeated then Retaking(sentAt, observed) else Sending(sentAt)).(guard := Some(Claim(sentAt)))
      else Moved(s, i, Done(true))
    case Call(i, lost, answer) =>
      var sentAt := s.workers[i].phase.sentAt;
      var s' := s.(accepted := s.accepted + lost, lostAnswers := s.lostAnswers + lost);
      match answer {
        case Accepts => Moved(s', i, Accepted(sentAt)).(accepted := s'.accepted + 1)
        case Refuses => Moved(s', i, Refused(sentAt))
        case AcceptsUnseen =>
          Moved(s', i, Refused(sentAt)).(accepted := s'.accepted + 1, lostAnswers := s'.lostAnswers + 1)
      }
    case WriteSent(i, written) =>
      var s' := Moved(s, i, Done(true));
      if written then s'.(guard := Some(s.guard.value.(state := SENT))) else s'.(lostMarks := s.lostMarks + 1)
    case WriteFailed(i, write) =>
      var failed := s.(guard := Some(s.guard.value.(state := FAILED, failureReason := true)));
      match write {
        case Written => Moved(failed, i, Done(false))
        case Lost => Moved(s, i, Done(false))
        case Repeated => failed
      }
    case Delivered => s.(guard := Some(s.guard.value.(delivered := true)))
    case Die(i) =>
      var s' := Moved(s, i, Done(false));
      if s.workers[i].phase.Accepted? then s'.(lostMarks := s.lostMarks + 1) else s'
  }

  ghost predicate Run(t: Timings, s0: State, steps: seq<Step>, s: State)
    decreases |steps|
  {
    if steps == [] then s == s0
    else CanStep(t, s0, steps[0]) && Run(t, Next(t, s0, steps[0]), steps[1..], s)
  }

  /** Between its claim and its last write. */
  predicate Holding(p: Phase) {
    p.Sending? || p.Accepted? || p.Refused?
  }

  predicate OneHolder(s: State) {
    forall i, j :: 0 <= i < j < |s.workers| ==> !(Holding(s.workers[i].phase) && Holding(s.workers[j].phase))
  }

  // ---- One sender at a time

  /** No FAILED that took effect is written again, over whatever came of it meanwhile. */
  predicate FailsOnce(step: Step) {
    !(step.WriteFailed? && step.write.Repeated?)
  }

  predicate TimelyWorker(t: Timings, s: State, w: Worker) {
    && w.startedAt <= s.now
    && (!w.phase.Done? ==> s.now <= w.startedAt + t.timeout)
    && (!w.phase.Done? && !w.phase.Started? ==> w.startedAt <= w.phase.sentAt <= s.now)
    && (w.phase.Retaking? ==>
          var g := w.phase.observed; !g.delivered && (g.failureReason || Abandoned(t, g, w.phase.sentAt)))
  }

  predicate Consistent(t: Timings, s: State, w: Worker) {
    && TimelyWorker(t, s, w)
    && (Holding(w.phase) ==>
          && s.guard.Some? && s.guard.value.state.CLAIMED? && !s.guard.value.failureReason
          && s.guard.value.sentAt == w.phase.sentAt)
  }

  predicate Inv(t: Timings, s: State) {
    && (forall i :: 0 <= i < |s.workers| ==> Consistent(t, s, s.workers[i]))
    && OneHolder(s)
    && (s.guard.Some? && s.guard.value.failureReason ==> s.guard.value.state.FAILED?)
    && (s.guard.Some? && s.guard.value.state.FAILED? ==> s.guard.value.failureReason)
  }

  predicate NoHolder(s: State) {
    forall i :: 0 <= i < |s.workers| ==> !Holding(s.workers[i].phase)
  }

  /** A takeover whose condition holds meets no worker that still holds the guard. */
  lemma RetakeMeetsNoHolder(t: Timings, s: State, i: nat, repeated: bool)
    requires t.timeout <= t.stale && Inv(t, s) && CanStep(t, s, Retake(i, repeated))
    requires RetakeHolds(s.guard.value, s.workers[i].phase.observed)
    ensures NoHolder(s)
  {
    assert Consistent(t, s, s.workers[i]);
    forall j | 0 <= j < |s.workers| ensures !Holding(s.workers[j].phase) {
      assert Consistent(t, s, s.workers[j]);
    }
  }

  lemma MovedKeeps(t: Timings, s: State, s': State, i: nat)
    requires Inv(t, s) && i < |s.workers| == |s'.workers| && s'.now == s.now
    requires s'.workers == s.workers[i := s'.workers[i]] && Consistent(t, s', s'.workers[i])
    requires s'.guard == s.guard || (forall j :: 0 <= j < |s.workers| && j != i ==> !Holding(s.workers[j].phase))
    requires Holding(s'.workers[i].phase) && !Holding(s.workers[i].phase) ==> NoHolder(s)
    ensures (forall j :: 0 <= j < |s'.workers| ==> Consistent(t, s', s'.workers[j])) && OneHolder(s')
  {
    forall j | 0 <= j < |s'.workers| ensures Consistent(t, s', s'.workers[j]) {
      assert Consistent(t, s, s.workers[j]);
    }
  }

  lemma QuietStepKeepsInv(t: Timings, s: State, step: Step)
    requires Inv(t, s) && CanStep(t, s, step) && (step.Tick? || step.Receive? || step.Delivered?)
    ensures Inv(t, Next(t, s, step))
  {
    var s' := Next(t, s, step);
    forall i | 0 <= i < |s'.workers| ensures Consistent(t, s', s'.workers[i]) {
      if i < |s.workers| {
        assert Consistent(t, s, s.workers[i]) && s.workers[i] in s.workers;
      }
    }
  }

  lemma NoGuardNoHolder(t: Timings, s: State)
    requires Inv(t, s) && s.guard.None?
    ensures NoHolder(s)
  {
    forall j | 0 <= j < |s.workers| ensures !Holding(s.workers[j].phase) {
      assert Consistent(t, s, s.workers[j]);
    }
  }

  lemma ClaimKeepsInv(t: Timings, s: State, step: Step)
    requires t.timeout <= t.stale && Inv(t, s) && CanStep(t, s, step) && (step.Put? || step.Retake?)
    ensures Inv(t, Next(t, s, step))
  {
    var i := step.i;
    assert Consistent(t, s, s.workers[i]);
    if step.Put? {
      if s.guard.None? {
        NoGuardNoHolder(t, s);
      }
    } else if RetakeHolds(s.guard.value, s.workers[i].phase.observed) {
      RetakeMeetsNoHolder(t, s, i, step.repeated);
    }
    MovedKeeps(t, s, Next(t, s, step), i);
  }

  lemma ApproachKeepsInv(t: Timings, s: State, step: Step)
    requires Inv(t, s) && CanStep(t, s, step) && (step.Stamp? || step.ReadGuard? || step.Call?)
    ensures Inv(t, Next(t, s, step))
  {
    assert Consistent(t, s, s.workers[step.i]);
    MovedKeeps(t, s, Next(t, s, step), step.i);
  }

  lemma EndKeepsInv(t: Timings, s: State, step: Step)
    requires Inv(t, s) && CanStep(t, s, step) && FailsOnce(step)
    requires step.WriteSent? || step.WriteFailed? || step.Die?
    ensures Inv(t, Next(t, s, step))
  {
    assert Consistent(t, s, s.workers[step.i]);
    MovedKeeps(t, s, Next(t, s, step), step.i);
  }

  lemma StepKeepsInv(t: Timings, s: State, step: Step)
    requires t.timeout <= t.stale && Inv(t, s) && CanStep(t, s, step) && FailsOnce(step)
    ensures Inv(t, Next(t, s, step))
  {
    match step
    case Tick(_) => QuietStepKeepsInv(t, s, step);
    case Receive => QuietStepKeepsInv(t, s, step);
    case Delivered => QuietStepKeepsInv(t, s, step);
    case Put(_, _) => ClaimKeepsInv(t, s, step);
    case Retake(_, _) => ClaimKeepsInv(t, s, step);
    case Stamp(_) => ApproachKeepsInv(t, s, step);
    case ReadGuard(_) => ApproachKeepsInv(t, s, step);
    case Call(_, _, _) => ApproachKeepsInv(t, s, step);
    case _ => EndKeepsInv(t, s, step);
  }

  lemma {:induction false} RunKeepsInv(t: Timings, s0: State, steps: seq<Step>, s: State)
    requires t.timeout <= t.stale && Inv(t, s0) && Run(t, s0, steps, s)
    requires forall step :: step in steps ==> FailsOnce(step)
    ensures Inv(t, s)
    decreases |steps|
  {
    if steps != [] {
      assert steps[0] in steps;
      StepKeepsInv(t, s0, steps[0]);
      RunKeepsInv(t, Next(t, s0, steps[0]), steps[1..], s);
    }
  }

  /** `repeats` admits runs in which a FAILED that took effect is written again. */
  ghost predicate OneSenderAtATime(t: Timings, repeats: bool) {
    forall steps, s :: Run(t, START, steps, s) && (repeats || forall step :: step in steps ==> FailsOnce(step))
      ==> OneHolder(s)
  }

  lemma {:induction false} RunAlong(t: Timings, states: seq<State>, steps: seq<Step>)
    requires |states| == |steps| + 1
    requires forall k :: 0 <= k < |steps| ==>
      CanStep(t, states[k], steps[k]) && states[k + 1] == Next(t, states[k], steps[k])
    ensures Run(t, states[0], steps, states[|steps|])
    decreases |steps|
  {
    if steps != [] {
      forall k | 0 <= k < |steps| - 1
        ensures CanStep(t, states[1..][k], steps[1..][k]) && states[1..][k + 1] == Next(t, states[1..][k], steps[1..][k])
      {
        assert states[1..][k] == states[k + 1] && states[1..][k + 1] == states[k + 2] && steps[1..][k] == steps[k + 1];
      }
      RunAlong(t, states[1..], steps[1..]);
    }
  }

  function TwoSendersStep(t: Timings, k: nat): Step {
    match k
    case 0 => Receive
    case 1 => Stamp(0)
    case 2 => Put(0, false)
    case 3 => Tick(t.stale + 1)
    case 4 => Receive
    case 5 => Stamp(1)
    case 6 => Put(1, false)
    case 7 => ReadGuard(1)
    case _ => Retake(1, false)
  }

  function TwoSendersState(t: Timings, k: nat): State {
    var late := t.stale + 1;
    var claim := Claim(0);
    var first := Worker(0, Sending(0));
    var s4 := State(late, Some(claim), [first], 0, 0, 0);
    match k
    case 0 => START
    case 1 => START.(workers := [Worker(0, Started)])
    case 2 => START.(workers := [Worker(0, Claiming(0))])
    case 3 => s4.(now := 0)
    case 4 => s4
    case 5 => s4.(workers := [first, Worker(late, Started)])
    case 6 => s4.(workers := [first, Worker(late, Claiming(late))])
    case 7 => s4.(workers := [first, Worker(late, Contested(late))])
    case 8 => s4.(workers := [first, Worker(late, Retaking(late, claim))])
    case _ => s4.(workers := [first, Worker(late, Sending(late))], guard := Some(claim.(sentAt := late)))
  }

  lemma FirstSender(t: Timings, k: nat)
    requires t.stale < t.timeout && k < 4
    ensures CanStep(t, TwoSendersState(t, k), TwoSendersStep(t, k))
    ensures TwoSendersState(t, k + 1) == Next(t, TwoSendersState(t, k), TwoSendersStep(t, k))
  {
  }

  lemma SecondSender(t: Timings, k: nat)
    requires t.stale < t.timeout && 4 <= k < 9
    ensures CanStep(t, TwoSendersState(t, k), TwoSendersStep(t, k))
    ensures TwoSendersState(t, k + 1).workers == Next(t, TwoSendersState(t, k), TwoSendersStep(t, k)).workers
    ensures TwoSendersState(t, k + 1) == Next(t, TwoSendersState(t, k), TwoSendersStep(t, k))
  {
  }

  /** A claim that may be taken over while its worker still lives: two senders at once. */
  lemma TwoSenders(t: Timings) returns (steps: seq<Step>, s: State)
    requires t.stale < t.timeout
    ensures Run(t, START, steps, s) && !OneHolder(s)
    ensures forall step :: step in steps ==> FailsOnce(step)
  {
    var states := seq(10, (k: nat) => TwoSendersState(t, k));
    steps := seq(9, (k: nat) => TwoSendersStep(t, k));
    forall k | 0 <= k < 9 ensures CanStep(t, states[k], steps[k]) && states[k + 1] == Next(t, states[k], steps[k]) {
      if k < 4 {
        FirstSender(t, k);
      } else {
        SecondSender(t, k);
      }
    }
    RunAlong(t, states, steps);
    s := states[9];
    assert Holding(s.workers[0].phase) && Holding(s.workers[1].phase);
  }

  /** Three workers at once: the first writes FAILED twice, because the first answer is lost. In between
      the second takes the page over, is accepted and marks it SENT; the third finds it FAILED again. */
  function TwiceFailedStep(k: nat): Step {
    match k
    case 3 => Stamp(0)
    case 4 => Put(0, false)
    case 5 => Call(0, 0, Refuses)
    case 6 => WriteFailed(0, Repeated)
    case 7 => Stamp(1)
    case 8 => Put(1, false)
    case 9 => ReadGuard(1)
    case 10 => Retake(1, false)
    case 11 => Call(1, 0, Accepts)
    case 12 => WriteSent(1, true)
    case 13 => WriteFailed(0, Written)
    case 14 => Stamp(2)
    case 15 => Put(2, false)
    case 16 => ReadGuard(2)
    case 17 => Retake(2, false)
    case 18 => Call(2, 0, Accepts)
    case 19 => WriteSent(2, true)
    case _ => Receive
  }

  const FAILED_AT_ONCE := Guard(FAILED, 0, true, false)

  function Three(p: Phase, q: Phase, r: Phase): seq<Worker> {
    [Worker(0, p), Worker(0, q), Worker(0, r)]
  }

  function TwiceFailedState(k: nat): State {
    var failed := State(0, Some(FAILED_AT_ONCE), Three(Refused(0), Started, Started), 0, 0, 0);
    var taken := State(0, Some(Claim(0)), Three(Refused(0), Sending(0), Started), 0, 0, 0);
    var again := State(0, Some(FAILED_AT_ONCE), Three(Done(false), Done(true), Started), 1, 0, 0);
    match k
    case 0 => START
    case 1 => START.(workers := [Worker(0, Started)])
    case 2 => START.(workers := [Worker(0, Started), Worker(0, Started)])
    case 3 => START.(workers := Three(Started, Started, Started))
    case 4 => START.(workers := Three(Claiming(0), Started, Started))
    case 5 => taken.(workers := Three(Sending(0), Started, Started))
    case 6 => taken.(workers := Three(Refused(0), Started, Started))
    case 7 => failed
    case 8 => failed.(workers := Three(Refused(0), Claiming(0), Started))
    case 9 => failed.(workers := Three(Refused(0), Contested(0), Started))
    case 10 => failed.(workers := Three(Refused(0), Retaking(0, FAILED_AT_ONCE), Started))
    case 11 => taken
    case 12 => taken.(workers := Three(Refused(0), Accepted(0), Started), accepted := 1)
    case 13 => again.(workers := Three(Refused(0), Done(true), Started), guard := Some(Claim(0).(state := SENT)))
    case 14 => again
    case 15 => again.(workers := Three(Done(false), Done(true), Claiming(0)))
    case 16 => again.(workers := Three(Done(false), Done(true), Contested(0)))
    case 17 => again.(workers := Three(Done(false), Done(true), Retaking(0, FAILED_AT_ONCE)))
    case 18 => again.(workers := Three(Done(false), Done(true), Sending(0)), guard := Some(Claim(0)))
    case 19 => again.(workers := Three(Done(false), Done(true), Accepted(0)), guard := Some(Claim(0)), accepted := 2)
    case _ =>
      again.(workers := Three(Done(false), Done(true), Done(true)),
             guard := Some(Claim(0).(state := SENT)), accepted := 2)
  }

  predicate TwiceFailedAt(t: Timings, k: nat) {
    && CanStep(t, TwiceFailedState(k), TwiceFailedStep(k))
    && TwiceFailedState(k + 1) == Next(t, TwiceFailedState(k), TwiceFailedStep(k))
  }

  lemma FirstFails(t: Timings, k: nat)
    requires k < 7
    ensures TwiceFailedAt(t, k)
  {
    assert TwiceFailedState(k + 1).workers == Next(t, TwiceFailedState(k), TwiceFailedStep(k)).workers;
  }

  lemma SecondIsAccepted(t: Timings, k: nat)
    requires 7 <= k < 13
    ensures TwiceFailedAt(t, k)
  {
    assert TwiceFailedState(k + 1).workers == Next(t, TwiceFailedState(k), TwiceFailedStep(k)).workers;
  }

  lemma ThirdIsAccepted(t: Timings, k: nat)
    requires 13 <= k < 20
    ensures TwiceFailedAt(t, k)
  {
    assert TwiceFailedState(k + 1).workers == Next(t, TwiceFailedState(k), TwiceFailedStep(k)).workers;
  }

  lemma TwiceFailedRun(t: Timings, n: nat) returns (steps: seq<Step>)
    requires n <= 20
    ensures Run(t, START, steps, TwiceFailedState(n))
  {
    var states := seq(n + 1, (k: nat) => TwiceFailedState(k));
    steps := seq(n, (k: nat) => TwiceFailedStep(k));
    forall k | 0 <= k < n ensures CanStep(t, states[k], steps[k]) && states[k + 1] == Next(t, states[k], steps[k]) {
      if k < 7 {
        FirstFails(t, k);
      } else if k < 13 {
        SecondIsAccepted(t, k);
      } else {
        ThirdIsAccepted(t, k);
      }
      assert TwiceFailedAt(t, k);
    }
    RunAlong(t, states, steps);
  }

  /** At most one worker is between its claim and its last write, in every run, exactly when a claim
      goes stale no sooner than its worker is ended and no FAILED that took effect is written again;
      with such writes no timing does. */
  lemma OneSenderIff(t: Timings, repeats: bool)
    ensures OneSenderAtATime(t, repeats) <==> t.timeout <= t.stale && !repeats
  {
    if repeats {
      var steps := TwiceFailedRun(t, 11);
      var s := TwiceFailedState(11);
      assert Holding(s.workers[0].phase) && Holding(s.workers[1].phase);
    } else if t.timeout <= t.stale {
      forall steps, s | Run(t, START, steps, s) && forall step :: step in steps ==> FailsOnce(step)
        ensures OneHolder(s)
      {
        RunKeepsInv(t, START, steps, s);
      }
    } else {
      var steps, s := TwoSenders(t);
    }
  }

  // ---- A delivered page

  lemma DeliveredStepStays(t: Timings, s: State, step: Step)
    requires s.guard.Some? && s.guard.value.delivered && CanStep(t, s, step)
    ensures var s' := Next(t, s, step);
      && s'.guard.Some? && s'.guard.value.delivered
      && forall i :: 0 <= i < |s'.workers| && s'.workers[i].phase.Sending? ==>
           i < |s.workers| && s.workers[i].phase.Sending?
  {
  }

  lemma {:induction false} DeliveredStays(t: Timings, s0: State, steps: seq<Step>, s: State)
    requires s0.guard.Some? && s0.guard.value.delivered && Run(t, s0, steps, s)
    ensures s.guard.Some? && s.guard.value.delivered
    ensures forall i :: 0 <= i < |s.workers| && s.workers[i].phase.Sending? ==>
      i < |s0.workers| && s0.workers[i].phase.Sending?
    decreases |steps|
  {
    if steps != [] {
      DeliveredStepStays(t, s0, steps[0]);
      DeliveredStays(t, Next(t, s0, steps[0]), steps[1..], s);
    }
  }

  /** Once the page is known to be delivered no worker sets out to send it again, in any run, with
      whatever writes are repeated. */
  lemma DeliveredIsNotSentAgain(t: Timings, s0: State, steps: seq<Step>, s: State)
    requires CanStep(t, s0, Delivered) && Run(t, Next(t, s0, Delivered), steps, s)
    ensures s.guard.Some? && s.guard.value.delivered
    ensures forall i :: 0 <= i < |s.workers| && s.workers[i].phase.Sending? ==>
      i < |s0.workers| && s0.workers[i].phase.Sending?
  {
    DeliveredStays(t, Next(t, s0, Delivered), steps, s);
  }

  // ---- How often the member is paged

  predicate HasAccepted(s: State) {
    exists i :: 0 <= i < |s.workers| && s.workers[i].phase.Accepted?
  }

  predicate MarkedSent(s: State) {
    s.guard.Some? && s.guard.value.state.SENT?
  }

  /** Each acceptance but one lost its answer or its mark; that one is marked, or its worker is about to
      mark it. */
  predicate Counted(s: State) {
    s.accepted == s.lostAnswers + s.lostMarks + if MarkedSent(s) || HasAccepted(s) then 1 else 0
  }

  lemma HolderOnly(t: Timings, s: State, i: nat)
    requires Inv(t, s) && i < |s.workers| && Holding(s.workers[i].phase)
    ensures !MarkedSent(s)
    ensures HasAccepted(s) <==> s.workers[i].phase.Accepted?
  {
    assert Consistent(t, s, s.workers[i]);
    if j :| 0 <= j < |s.workers| && s.workers[j].phase.Accepted? {
      assert Holding(s.workers[j].phase);
      assert i == j;
    }
  }

  lemma OthersKeepAccepted(s: State, s': State, i: nat)
    requires i < |s.workers| == |s'.workers| && s'.workers == s.workers[i := s'.workers[i]]
    requires !s.workers[i].phase.Accepted? && !s'.workers[i].phase.Accepted?
    ensures HasAccepted(s') <==> HasAccepted(s)
  {
    if j :| 0 <= j < |s.workers| && s.workers[j].phase.Accepted? {
      assert s'.workers[j].phase.Accepted?;
    }
    if j :| 0 <= j < |s'.workers| && s'.workers[j].phase.Accepted? {
      assert s.workers[j].phase.Accepted?;
    }
  }

  lemma NoneAccepted(s: State)
    requires NoHolder(s)
    ensures !HasAccepted(s)
  {
  }

  lemma ClaimKeepsCount(t: Timings, s: State, step: Step)
    requires t.timeout <= t.stale && Inv(t, s) && Counted(s) && CanStep(t, s, step) && (step.Put? || step.Retake?)
    ensures Counted(Next(t, s, step))
  {
    var i := step.i;
    var s' := Next(t, s, step);
    OthersKeepAccepted(s, s', i);
    if step.Put? && s.guard.None? {
      NoGuardNoHolder(t, s);
    } else if step.Retake? && RetakeHolds(s.guard.value, s.workers[i].phase.observed) {
      RetakeMeetsNoHolder(t, s, i, step.repeated);
      assert Consistent(t, s, s.workers[i]);
    }
  }

  lemma CallKeepsCount(t: Timings, s: State, step: Step)
    requires t.timeout <= t.stale && Inv(t, s) && Counted(s) && CanStep(t, s, step)
    requires (step.Call? || step.WriteSent? || step.WriteFailed?) && FailsOnce(step)
    ensures Counted(Next(t, s, step))
  {
    var s' := Next(t, s, step);
    HolderOnly(t, s, step.i);
    StepKeepsInv(t, s, step);
    if Holding(s'.workers[step.i].phase) {
      HolderOnly(t, s', step.i);
    } else {
      forall j | 0 <= j < |s'.workers| ensures !s'.workers[j].phase.Accepted? {
        assert j != step.i ==> s'.workers[j] == s.workers[j];
      }
    }
  }

  lemma DieKeepsCount(t: Timings, s: State, i: nat)
    requires t.timeout <= t.stale && Inv(t, s) && Counted(s) && CanStep(t, s, Die(i))
    ensures Counted(Next(t, s, Die(i)))
  {
    var s' := Next(t, s, Die(i));
    if s.workers[i].phase.Accepted? {
      HolderOnly(t, s, i);
      forall j | 0 <= j < |s'.workers| ensures !s'.workers[j].phase.Accepted? {
        assert j != i ==> s'.workers[j] == s.workers[j];
      }
    } else {
      OthersKeepAccepted(s, s', i);
    }
  }

  lemma StepKeepsCount(t: Timings, s: State, step: Step)
    requires t.timeout <= t.stale && Inv(t, s) && Counted(s) && CanStep(t, s, step) && FailsOnce(step)
    ensures Counted(Next(t, s, step))
  {
    var s' := Next(t, s, step);
    match step
    case Put(_, _) => ClaimKeepsCount(t, s, step);
    case Retake(_, _) => ClaimKeepsCount(t, s, step);
    case Call(_, _, _) => CallKeepsCount(t, s, step);
    case WriteSent(_, _) => CallKeepsCount(t, s, step);
    case WriteFailed(_, _) => CallKeepsCount(t, s, step);
    case Die(i) => DieKeepsCount(t, s, i);
    case Stamp(i) => OthersKeepAccepted(s, s', i);
    case ReadGuard(i) => OthersKeepAccepted(s, s', i);
    case Receive =>
      if j :| 0 <= j < |s.workers| && s.workers[j].phase.Accepted? {
        assert s'.workers[j].phase.Accepted?;
      }
      if j :| 0 <= j < |s'.workers| && s'.workers[j].phase.Accepted? {
        assert s.workers[j].phase.Accepted?;
      }
    case _ =>
      assert s'.workers == s.workers;
  }

  lemma {:induction false} RunKeepsCount(t: Timings, s0: State, steps: seq<Step>, s: State)
    requires t.timeout <= t.stale && Inv(t, s0) && Counted(s0) && Run(t, s0, steps, s)
    requires forall step :: step in steps ==> FailsOnce(step)
    ensures Counted(s)
    decreases |steps|
  {
    if steps != [] {
      assert steps[0] in steps;
      StepKeepsCount(t, s0, steps[0]);
      StepKeepsInv(t, s0, steps[0]);
      RunKeepsCount(t, Next(t, s0, steps[0]), steps[1..], s);
    }
  }

  /** Whatever is redelivered or published twice, the vendor takes the page once, and once more exactly
      for each post it took whose answer was lost, and for each acceptance whose mark was: by a dead
      worker or a failed write. */
  lemma PagedOncePlusLost(t: Timings, steps: seq<Step>, s: State)
    requires t.timeout <= t.stale && Run(t, START, steps, s) && forall step :: step in steps ==> FailsOnce(step)
    ensures s.lostAnswers + s.lostMarks <= s.accepted <= s.lostAnswers + s.lostMarks + 1
    ensures s.accepted == s.lostAnswers + s.lostMarks + 1 <==> MarkedSent(s) || HasAccepted(s)
  {
    RunKeepsCount(t, START, steps, s);
  }

  /** `answers` admits posts whose answer is lost, `repeats` a FAILED that is written again. */
  ghost predicate LostMarksBoundPages(t: Timings, answers: bool, repeats: bool) {
    forall steps, s ::
      && Run(t, START, steps, s)
      && (answers || s.lostAnswers == 0)
      && (repeats || forall step :: step in steps ==> FailsOnce(step))
      ==> s.accepted <= s.lostMarks + 1
  }

  function PostedAgainStep(k: nat): Step {
    match k
    case 0 => Receive
    case 1 => Stamp(0)
    case 2 => Put(0, false)
    case 3 => Call(0, 1, Accepts)
    case _ => WriteSent(0, true)
  }

  function PostedAgainState(k: nat): State {
    match k
    case 0 => START
    case 1 => START.(workers := [Worker(0, Started)])
    case 2 => START.(workers := [Worker(0, Claiming(0))])
    case 3 => START.(workers := [Worker(0, Sending(0))], guard := Some(Claim(0)))
    case 4 => State(0, Some(Claim(0)), [Worker(0, Accepted(0))], 2, 1, 0)
    case _ => State(0, Some(Claim(0).(state := SENT)), [Worker(0, Done(true))], 2, 1, 0)
  }

  lemma PostedAgainAt(t: Timings, k: nat)
    requires k < 5
    ensures CanStep(t, PostedAgainState(k), PostedAgainStep(k)) && FailsOnce(PostedAgainStep(k))
    ensures PostedAgainState(k + 1).workers == Next(t, PostedAgainState(k), PostedAgainStep(k)).workers
    ensures PostedAgainState(k + 1) == Next(t, PostedAgainState(k), PostedAgainStep(k))
  {
  }

  /** The vendor takes the post, the connection is lost before the answer, and the same call posts the
      page again: two acceptances, the page marked SENT, and no mark lost. */
  lemma PostedAgain(t: Timings) returns (steps: seq<Step>, s: State)
    ensures Run(t, START, steps, s) && forall step :: step in steps ==> FailsOnce(step)
    ensures s.accepted == 2 && s.lostMarks == 0 && MarkedSent(s)
  {
    var states := seq(6, (k: nat) => PostedAgainState(k));
    steps := seq(5, (k: nat) => PostedAgainStep(k));
    forall k | 0 <= k < 5
      ensures CanStep(t, states[k], steps[k]) && states[k + 1] == Next(t, states[k], steps[k]) && FailsOnce(steps[k])
    {
      PostedAgainAt(t, k);
    }
    RunAlong(t, states, steps);
    s := states[5];
  }

  /** A FAILED written again over another worker's SENT: two acceptances, no mark or answer lost. */
  lemma PagedAgainAfterSent(t: Timings) returns (steps: seq<Step>, s: State)
    ensures Run(t, START, steps, s)
    ensures s.accepted == 2 && s.lostMarks == 0 && s.lostAnswers == 0 && MarkedSent(s)
  {
    steps := TwiceFailedRun(t, 20);
    s := TwiceFailedState(20);
  }

  /** Lost marks alone bound the pages, where a claim outlives its worker, exactly when no answer is
      lost and no FAILED is written again. */
  lemma LostMarksBoundPagesIff(t: Timings, answers: bool, repeats: bool)
    requires t.timeout <= t.stale
    ensures LostMarksBoundPages(t, answers, repeats) <==> !answers && !repeats
  {
    if answers {
      var steps, s := PostedAgain(t);
    } else if repeats {
      var steps, s := PagedAgainAfterSent(t);
    } else {
      forall steps, s |
        Run(t, START, steps, s) && s.lostAnswers == 0 && forall step :: step in steps ==> FailsOnce(step)
        ensures s.accepted <= s.lostMarks + 1
      {
        PagedOncePlusLost(t, steps, s);
      }
    }
  }

  // ---- One message, redelivered

  predicate AllDone(ws: seq<Worker>) {
    forall w :: w in ws ==> w.phase.Done?
  }

  /** The message comes again only after its worker ended without acknowledging it, and no sooner than
      the visibility timeout after it came before. */
  predicate Redelivers(t: Timings, s: State, step: Step) {
    step.Receive? && s.workers != [] ==>
      var last := s.workers[|s.workers| - 1];
      AllDone(s.workers) && last.phase == Done(false) && s.now >= last.startedAt + t.visibility
  }

  ghost predicate MessageRun(t: Timings, s0: State, steps: seq<Step>, s: State)
    decreases |steps|
  {
    if steps == [] then s == s0
    else
      && CanStep(t, s0, steps[0]) && Redelivers(t, s0, steps[0])
      && MessageRun(t, Next(t, s0, steps[0]), steps[1..], s)
  }

  /** No claim that took effect is written again. */
  predicate ClaimsOnce(step: Step) {
    step.Put? || step.Retake? ==> !step.repeated
  }

  /** No worker acknowledges the message of a page the vendor never accepted; `repeats` admits runs in
      which a claim that took effect is written again. */
  ghost predicate NeverDropped(t: Timings, repeats: bool) {
    forall steps, s :: MessageRun(t, START, steps, s) && (repeats || forall step :: step in steps ==> ClaimsOnce(step))
      ==> forall w :: w in s.workers && w.phase == Done(true) ==> s.accepted > 0
  }

  predicate Approaching(p: Phase) {
    p.Started? || p.Claiming? || p.Contested? || p.Retaking?
  }

  /** What holds of one message's workers while the vendor has accepted nothing. */
  predicate Undelivered(t: Timings, s: State) {
    && (forall w :: w in s.workers ==> w.phase != Done(true))
    && (s.workers != [] ==>
          var last := s.workers[|s.workers| - 1];
          && AllDone(s.workers[..|s.workers| - 1])
          && last.startedAt <= s.now
          && (!last.phase.Done? && !last.phase.Started? ==>
                last.startedAt <= last.phase.sentAt <= last.startedAt + t.claimBy)
          && !last.phase.Accepted?
          && (s.guard.Some? && s.guard.value.state.CLAIMED? ==>
                if Approaching(last.phase) then s.guard.value.sentAt + t.visibility <= last.startedAt + t.claimBy
                else s.guard.value.sentAt <= last.startedAt + t.claimBy)
          && (last.phase.Retaking? ==> s.guard == Some(last.phase.observed))
          && (last.phase.Contested? ==> s.guard.Some?))
    && (s.workers == [] ==> s.guard.None?)
    && (s.guard.Some? ==>
          var g := s.guard.value;
          !g.delivered && !g.state.SENT? && (g.state.FAILED? <==> g.failureReason))
  }

  lemma OnlyLastMoves(t: Timings, s: State, step: Step)
    requires Undelivered(t, s) && CanStep(t, s, step)
    requires !step.Tick? && !step.Receive? && !step.Delivered?
    ensures s.workers != [] && step.i == |s.workers| - 1
  {
    var before := s.workers[..|s.workers| - 1];
    forall k | 0 <= k < |before| ensures s.workers[k].phase.Done? {
      assert before[k] in before;
    }
  }

  lemma MoveKeepsUndelivered(t: Timings, s: State, step: Step)
    requires t.claimBy + t.stale < t.visibility
    requires Undelivered(t, s) && s.accepted == 0 && CanStep(t, s, step) && Next(t, s, step).accepted == 0
    requires !step.Tick? && !step.Receive? && !step.Delivered? && ClaimsOnce(step)
    ensures Undelivered(t, Next(t, s, step))
  {
    OnlyLastMoves(t, s, step);
    var s' := Next(t, s, step);
    var n := |s.workers| - 1;
    assert s'.workers[..n] == s.workers[..n];
    assert s'.workers[n].phase != Done(true);
    forall w | w in s'.workers ensures w.phase != Done(true) {
      var j :| 0 <= j < |s'.workers| && s'.workers[j] == w;
      assert j < n ==> s.workers[j] in s.workers;
    }
  }

  lemma StepKeepsUndelivered(t: Timings, s: State, step: Step)
    requires t.claimBy + t.stale < t.visibility
    requires Undelivered(t, s) && s.accepted == 0 && CanStep(t, s, step) && Redelivers(t, s, step)
    requires Next(t, s, step).accepted == 0 && ClaimsOnce(step)
    ensures Undelivered(t, Next(t, s, step))
  {
    var s' := Next(t, s, step);
    match step
    case Tick(_) =>
    case Receive =>
      assert s'.workers[..|s'.workers| - 1] == s.workers;
    case Delivered =>
    case _ => MoveKeepsUndelivered(t, s, step);
  }

  lemma AcceptedStays(t: Timings, s: State, step: Step)
    requires CanStep(t, s, step)
    ensures Next(t, s, step).accepted >= s.accepted
  {
  }

  lemma {:induction false} MessageRunKeeps(t: Timings, s0: State, steps: seq<Step>, s: State)
    requires t.claimBy + t.stale < t.visibility
    requires s0.accepted == 0 ==> Undelivered(t, s0)
    requires MessageRun(t, s0, steps, s) && forall step :: step in steps ==> ClaimsOnce(step)
    ensures s.accepted == 0 ==> Undelivered(t, s)
    decreases |steps|
  {
    if steps != [] {
      assert steps[0] in steps;
      AcceptedStays(t, s0, steps[0]);
      if Next(t, s0, steps[0]).accepted == 0 {
        StepKeepsUndelivered(t, s0, steps[0]);
      }
      MessageRunKeeps(t, Next(t, s0, steps[0]), steps[1..], s);
    }
  }

  lemma {:induction false} MessageAlong(t: Timings, states: seq<State>, steps: seq<Step>)
    requires |states| == |steps| + 1
    requires forall k :: 0 <= k < |steps| ==>
      && CanStep(t, states[k], steps[k]) && Redelivers(t, states[k], steps[k])
      && states[k + 1] == Next(t, states[k], steps[k])
    ensures MessageRun(t, states[0], steps, states[|steps|])
    decreases |steps|
  {
    if steps != [] {
      forall k | 0 <= k < |steps| - 1
        ensures CanStep(t, states[1..][k], steps[1..][k]) && Redelivers(t, states[1..][k], steps[1..][k])
        ensures states[1..][k + 1] == Next(t, states[1..][k], steps[1..][k])
      {
        assert states[1..][k] == states[k + 1] && states[1..][k + 1] == states[k + 2] && steps[1..][k] == steps[k + 1];
      }
      MessageAlong(t, states[1..], steps[1..]);
    }
  }

  function DroppedStep(t: Timings, k: nat): Step {
    match k
    case 0 => Receive
    case 1 => Tick(t.claimBy)
    case 2 => Stamp(0)
    case 3 => Put(0, false)
    case 4 => Die(0)
    case 5 => Tick(if t.visibility < t.claimBy then 0 else t.visibility - t.claimBy)
    case 6 => Receive
    case 7 => Stamp(1)
    case 8 => Put(1, false)
    case _ => ReadGuard(1)
  }

  function DroppedState(t: Timings, k: nat): State {
    var c := t.claimBy;
    var again := if t.visibility < c then c else t.visibility;
    var s4 := State(c, Some(Claim(c)), [Worker(0, Sending(c))], 0, 0, 0);
    var dead := Worker(0, Done(false));
    var s6 := s4.(now := again, workers := [dead]);
    match k
    case 0 => START
    case 1 => START.(workers := [Worker(0, Started)])
    case 2 => START.(now := c, workers := [Worker(0, Started)])
    case 3 => START.(now := c, workers := [Worker(0, Claiming(c))])
    case 4 => s4
    case 5 => s6.(now := c)
    case 6 => s6
    case 7 => s6.(workers := [dead, Worker(again, Started)])
    case 8 => s6.(workers := [dead, Worker(again, Claiming(again))])
    case 9 => s6.(workers := [dead, Worker(again, Contested(again))])
    case _ => s6.(workers := [dead, Worker(again, Done(true))])
  }

  lemma DroppedFirst(t: Timings, k: nat)
    requires t.claimBy <= t.timeout && t.visibility <= t.claimBy + t.stale && k < 5
    ensures CanStep(t, DroppedState(t, k), DroppedStep(t, k)) && Redelivers(t, DroppedState(t, k), DroppedStep(t, k))
    ensures DroppedState(t, k + 1) == Next(t, DroppedState(t, k), DroppedStep(t, k))
  {
  }

  lemma DroppedAgain(t: Timings, k: nat)
    requires t.claimBy <= t.timeout && t.visibility <= t.claimBy + t.stale && 5 <= k < 10
    ensures CanStep(t, DroppedState(t, k), DroppedStep(t, k)) && Redelivers(t, DroppedState(t, k), DroppedStep(t, k))
    ensures DroppedState(t, k + 1).workers == Next(t, DroppedState(t, k), DroppedStep(t, k)).workers
    ensures DroppedState(t, k + 1) == Next(t, DroppedState(t, k), DroppedStep(t, k))
  {
  }

  /** A worker that claims late and dies: its redelivery finds the claim too fresh to take over, skips
      the page as a duplicate, and acknowledges it. */
  lemma DroppedPage(t: Timings) returns (steps: seq<Step>, s: State)
    requires t.claimBy <= t.timeout && t.visibility <= t.claimBy + t.stale
    ensures MessageRun(t, START, steps, s) && forall step :: step in steps ==> ClaimsOnce(step)
    ensures s.accepted == 0 && s.workers != [] && s.workers[|s.workers| - 1].phase == Done(true)
  {
    var states := seq(11, (k: nat) => DroppedState(t, k));
    steps := seq(10, (k: nat) => DroppedStep(t, k));
    forall k | 0 <= k < 10
      ensures CanStep(t, states[k], steps[k]) && Redelivers(t, states[k], steps[k])
      ensures states[k + 1] == Next(t, states[k], steps[k])
    {
      if k < 5 {
        DroppedFirst(t, k);
      } else {
        DroppedAgain(t, k);
      }
    }
    MessageAlong(t, states, steps);
    s := states[10];
  }

  function RepeatedClaimStep(k: nat): Step {
    match k
    case 0 => Receive
    case 1 => Stamp(0)
    case 2 => Put(0, true)
    case 3 => Put(0, false)
    case _ => ReadGuard(0)
  }

  function RepeatedClaimState(k: nat): State {
    match k
    case 0 => START
    case 1 => START.(workers := [Worker(0, Started)])
    case 2 => START.(workers := [Worker(0, Claiming(0))])
    case 3 => START.(workers := [Worker(0, Claiming(0))], guard := Some(Claim(0)))
    case 4 => START.(workers := [Worker(0, Contested(0))], guard := Some(Claim(0)))
    case _ => START.(workers := [Worker(0, Done(true))], guard := Some(Claim(0)))
  }

  lemma RepeatedClaimAt(t: Timings, k: nat)
    requires k < 5
    ensures CanStep(t, RepeatedClaimState(k), RepeatedClaimStep(k))
    ensures Redelivers(t, RepeatedClaimState(k), RepeatedClaimStep(k))
    ensures RepeatedClaimState(k + 1).workers == Next(t, RepeatedClaimState(k), RepeatedClaimStep(k)).workers
    ensures RepeatedClaimState(k + 1) == Next(t, RepeatedClaimState(k), RepeatedClaimStep(k))
  {
  }

  /** A claim that took effect but whose answer was lost is written again and refused: the worker finds
      its own fresh claim, skips the page as a duplicate, and acknowledges it. At every timing. */
  lemma DroppedOnItsOwnClaim(t: Timings) returns (steps: seq<Step>, s: State)
    ensures MessageRun(t, START, steps, s)
    ensures s.accepted == 0 && s.workers == [Worker(0, Done(true))]
  {
    var states := seq(6, (k: nat) => RepeatedClaimState(k));
    steps := seq(5, (k: nat) => RepeatedClaimStep(k));
    forall k | 0 <= k < 5
      ensures CanStep(t, states[k], steps[k]) && Redelivers(t, states[k], steps[k])
      ensures states[k + 1] == Next(t, states[k], steps[k])
    {
      RepeatedClaimAt(t, k);
    }
    MessageAlong(t, states, steps);
    s := states[5];
  }

  function RepeatedRetakeStep(t: Timings, k: nat): Step {
    match k
    case 0 => Receive
    case 1 => Stamp(0)
    case 2 => Put(0, false)
    case 3 => Call(0, 0, Refuses)
    case 4 => WriteFailed(0, Written)
    case 5 => Tick(t.visibility)
    case 6 => Receive
    case 7 => Stamp(1)
    case 8 => Put(1, false)
    case 9 => ReadGuard(1)
    case 10 => Retake(1, true)
    case _ => Retake(1, false)
  }

  function RepeatedRetakeState(t: Timings, k: nat): State {
    var v := t.visibility;
    var done := Worker(0, Done(false));
    var failed := State(v, Some(FAILED_AT_ONCE), [done], 0, 0, 0);
    match k
    case 0 => START
    case 1 => START.(workers := [Worker(0, Started)])
    case 2 => START.(workers := [Worker(0, Claiming(0))])
    case 3 => START.(workers := [Worker(0, Sending(0))], guard := Some(Claim(0)))
    case 4 => START.(workers := [Worker(0, Refused(0))], guard := Some(Claim(0)))
    case 5 => failed.(now := 0)
    case 6 => failed
    case 7 => failed.(workers := [done, Worker(v, Started)])
    case 8 => failed.(workers := [done, Worker(v, Claiming(v))])
    case 9 => failed.(workers := [done, Worker(v, Contested(v))])
    case 10 => failed.(workers := [done, Worker(v, Retaking(v, FAILED_AT_ONCE))])
    case 11 => failed.(workers := [done, Worker(v, Retaking(v, FAILED_AT_ONCE))], guard := Some(Claim(v)))
    case _ => failed.(workers := [done, Worker(v, Done(true))], guard := Some(Claim(v)))
  }

  lemma RepeatedRetakeAt(t: Timings, k: nat)
    requires k < 12
    ensures CanStep(t, RepeatedRetakeState(t, k), RepeatedRetakeStep(t, k))
    ensures Redelivers(t, RepeatedRetakeState(t, k), RepeatedRetakeStep(t, k))
    ensures RepeatedRetakeState(t, k + 1).workers
         == Next(t, RepeatedRetakeState(t, k), RepeatedRetakeStep(t, k)).workers
    ensures RepeatedRetakeState(t, k + 1) == Next(t, RepeatedRetakeState(t, k), RepeatedRetakeStep(t, k))
  {
  }

  /** So is a page whose send failed, when the takeover of its claim is written again. */
  lemma DroppedOnItsOwnTakeover(t: Timings) returns (steps: seq<Step>, s: State)
    ensures MessageRun(t, START, steps, s)
    ensures s.accepted == 0 && |s.workers| == 2 && s.workers[1].phase == Done(true)
  {
    var states := seq(13, (k: nat) => RepeatedRetakeState(t, k));
    steps := seq(12, (k: nat) => RepeatedRetakeStep(t, k));
    forall k | 0 <= k < 12
      ensures CanStep(t, states[k], steps[k]) && Redelivers(t, states[k], steps[k])
      ensures states[k + 1] == Next(t, states[k], steps[k])
    {
      RepeatedRetakeAt(t, k);
    }
    MessageAlong(t, states, steps);
    s := states[12];
  }

  /** No page is acknowledged unaccepted, in any run of its message, exactly when a claim is stale by the
      time the message comes again and no claim that took effect is written again; with such writes no
      timing keeps pages from being dropped. */
  lemma NeverDroppedIff(t: Timings, repeats: bool)
    requires t.claimBy <= t.timeout
    ensures NeverDropped(t, repeats) <==> t.claimBy + t.stale < t.visibility && !repeats
  {
    if repeats {
      var steps, s := DroppedOnItsOwnClaim(t);
      assert s.workers[0] in s.workers;
    } else if t.claimBy + t.stale < t.visibility {
      forall steps, s | MessageRun(t, START, steps, s) && forall step :: step in steps ==> ClaimsOnce(step)
        ensures forall w :: w in s.workers && w.phase == Done(true) ==> s.accepted > 0
      {
        MessageRunKeeps(t, START, steps, s);
      }
    } else {
      var steps, s := DroppedPage(t);
      assert s.workers[|s.workers| - 1] in s.workers;
    }
  }

  /** At the deployed timings, and as long as no write that took effect is sent again, there is one
      sender at a time, and no page is dropped exactly when every worker stamps its claim within ten
      seconds of the receive, of the fifteen it has. The client does send writes again. */
  lemma DeployedTimings(claimBy: nat, repeats: bool)
    requires claimBy <= 15
    ensures OneSenderAtATime(Timings(15, STALE_CLAIM_SECONDS, 30, claimBy), repeats) <==> !repeats
    ensures NeverDropped(Timings(15, STALE_CLAIM_SECONDS, 30, claimBy), repeats) <==> claimBy < 10 && !repeats
  {
    OneSenderIff(Timings(15, STALE_CLAIM_SECONDS, 30, claimBy), repeats);
    NeverDroppedIff(Timings(15, STALE_CLAIM_SECONDS, 30, claimBy), repeats);
  }

  /** With the visibility at twice the worker's timeout, and a worker free to claim up to its last
      second, no stale age gives both: one long enough for one sender at a time drops pages. */
  lemma NoStaleAgeServesBoth(t: Timings)
    requires t.visibility == 2 * t.timeout && t.claimBy == t.timeout
    ensures OneSenderAtATime(t, false) ==> !NeverDropped(t, false)
  {
    OneSenderIff(t, false);
    NeverDroppedIff(t, false);
  }
}
