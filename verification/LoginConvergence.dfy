/** Keeping a Cognito login in step with a member's status row.

    A status change commits the row and one outbox event together. Events reach the
    member-status consumer at least once, in any order, and several consumer instances may
    work on the same member at the same time. Each instance runs `convergeLoginState`:
    read the row, make the Cognito call the status asks for, read the row again, and repeat
    while the two reads ask for different login states, at most three rounds.

    Every await point of that loop is its own step here, so the calls of two instances
    interleave freely. */
module LoginConvergence {

  import opened MemberStatus

  datatype Login = Enabled | Disabled

  /** What a status asks of the login. */
  datatype LoginState = WantDisabled | WantEnabled | Untouched

  function LoginStateFor(status: Status): LoginState {
    match status
    case LOA | RETIRED => WantDisabled
    case ACTIVE | PROBATIONARY => WantEnabled
    case OtherStatus(_) => Untouched
  }

  predicate Touches(status: Status) {
    LoginStateFor(status) != Untouched
  }

  /** The login is in the state the status asks for; a status that asks for none suits any login. */
  predicate Agrees(status: Status, login: Login) {
    match LoginStateFor(status)
    case WantDisabled => login == Disabled
    case WantEnabled => login == Enabled
    case Untouched => true
  }

  const MAX_RECONCILE_ROUNDS: nat := 3

  /** Where one consumer instance is with the message it holds. `call` numbers the Cognito call
      it made last, 0 when the status asked for none. */
  datatype Handler =
    | Reading
    | Applying(status: Status, round: nat)
    | Rereading(status: Status, round: nat, call: nat)
    | Converged

  /** One member. `outbox` counts committed events not yet published, `queue` the messages
      waiting for the consumer, `failed` those on a failure queue; `calls` counts the Cognito
      calls made so far. */
  datatype Member = Member(
    row: Status,
    login: Login,
    calls: nat,
    outbox: nat,
    queue: nat,
    failed: nat,
    handlers: seq<Handler>)

  /** `ApplyUnanswered` is a Cognito call that took effect but whose answer was lost, so that the
      client makes it again. */
  datatype Step =
    | ChangeStatus(status: Status)
    | Publish(duplicated: bool)
    | PublishFails
    | Deliver(duplicated: bool)
    | ReadRow(i: nat)
    | Apply(i: nat)
    | ApplyUnanswered(i: nat)
    | RereadRow(i: nat, deadLettered: bool)
    | HandlerFails(i: nat, deadLettered: bool)
    | Delete(i: nat)
    | Redrive

  /** The failed message goes back to the queue, or to the dead-letter queue once its receives
      are used up. */
  function Release(m: Member, i: nat, deadLettered: bool): Member
    requires i < |m.handlers|
  {
    var rest := m.(handlers := m.handlers[..i] + m.handlers[i + 1..]);
    if deadLettered then rest.(failed := m.failed + 1) else rest.(queue := m.queue + 1)
  }

  predicate CanStep(m: Member, step: Step) {
    match step
    case ChangeStatus(_) => true
    case Publish(_) => m.outbox > 0
    case PublishFails => m.outbox > 0
    case Deliver(_) => m.queue > 0
    case ReadRow(i) => i < |m.handlers| && m.handlers[i].Reading?
    case Apply(i) => i < |m.handlers| && m.handlers[i].Applying?
    case ApplyUnanswered(i) => i < |m.handlers| && m.handlers[i].Applying? && Touches(m.handlers[i].status)
    case RereadRow(i, _) => i < |m.handlers| && m.handlers[i].Rereading?
    case HandlerFails(i, _) => i < |m.handlers|
    case Delete(i) => i < |m.handlers| && m.handlers[i].Converged?
    case Redrive => m.failed > 0
  }

  function Asked(status: Status): Login {
    if LoginStateFor(status) == WantDisabled then Disabled else Enabled
  }

  function ApplyStatus(m: Member, i: nat): Member
    requires CanStep(m, Apply(i))
  {
    var Applying(status, round) := m.handlers[i];
    if Touches(status) then
      m.(login := Asked(status),
         calls := m.calls + 1,
         handlers := m.handlers[i := Rereading(status, round, m.calls + 1)])
    else
      m.(handlers := m.handlers[i := Rereading(status, round, 0)])
  }

  function Reread(m: Member, i: nat, deadLettered: bool): Member
    requires CanStep(m, RereadRow(i, deadLettered))
  {
    var Rereading(status, round, _) := m.handlers[i];
    if LoginStateFor(m.row) == LoginStateFor(status) then
      m.(handlers := m.handlers[i := Converged])
    else if round < MAX_RECONCILE_ROUNDS then
      m.(handlers := m.handlers[i := Applying(m.row, round + 1)])
    else
      Release(m, i, deadLettered)
  }

  function Next(m: Member, step: Step): Member
    requires CanStep(m, step)
  {
    match step
    case ChangeStatus(status) => m.(row := status, outbox := m.outbox + 1)
    case Publish(duplicated) =>
      m.(outbox := if duplicated then m.outbox else m.outbox - 1, queue := m.queue + 1)
    case PublishFails => m.(outbox := m.outbox - 1, failed := m.failed + 1)
    case Deliver(duplicated) =>
      m.(queue := if duplicated then m.queue else m.queue - 1, handlers := m.handlers + [Reading])
    case ReadRow(i) => m.(handlers := m.handlers[i := Applying(m.row, 1)])
    case Apply(i) => ApplyStatus(m, i)
    case ApplyUnanswered(i) => m.(login := Asked(m.handlers[i].status), calls := m.calls + 1)
    case RereadRow(i, deadLettered) => Reread(m, i, deadLettered)
    case HandlerFails(i, deadLettered) => Release(m, i, deadLettered)
    case Delete(i) => m.(handlers := m.handlers[..i] + m.handlers[i + 1..])
    case Redrive => m.(failed := m.failed - 1, queue := m.queue + 1)
  }

  /** A member whose login was set up to suit the row, with nothing under way. */
  predicate Init(m: Member) {
    && Agrees(m.row, m.login)
    && m.calls == 0
    && m.outbox == m.queue == m.failed == 0
    && m.handlers == []
  }

  ghost predicate Run(m0: Member, steps: seq<Step>, m: Member)
    decreases |steps|
  {
    if steps == [] then m == m0
    else CanStep(m0, steps[0]) && Run(Next(m0, steps[0]), steps[1..], m)
  }

  /** An event for the member is still on its way somewhere. */
  predicate Outstanding(m: Member) {
    m.outbox > 0 || m.queue > 0 || m.failed > 0 || m.handlers != []
  }

  // ---- The invariant

  /** The instance has still to make a Cognito call, or to look at the row again without having
      made one. */
  predicate BeforeCall(h: Handler) {
    h.Reading? || h.Applying? || (h.Rereading? && !Touches(h.status))
  }

  /** The instance made the latest Cognito call of all and has not yet looked at the row again. */
  predicate HoldsLatestCall(m: Member, h: Handler) {
    h.Rereading? && Touches(h.status) && h.call == m.calls
  }

  predicate CallsNumbered(m: Member) {
    forall h | h in m.handlers && h.Rereading? && Touches(h.status) ::
      h.call <= m.calls && (h.call == m.calls ==> Agrees(h.status, m.login))
  }

  predicate RepairComing(m: Member) {
    || m.outbox + m.queue + m.failed > 0
    || exists h :: h in m.handlers && (BeforeCall(h) || HoldsLatestCall(m, h))
  }

  predicate Inv(m: Member) {
    CallsNumbered(m) && (Agrees(m.row, m.login) || RepairComing(m))
  }

  lemma RestHandlers(hs: seq<Handler>, i: nat)
    requires i < |hs|
    ensures forall h :: h in hs[..i] + hs[i + 1..] ==> h in hs
    ensures forall h :: h in hs && h != hs[i] ==> h in hs[..i] + hs[i + 1..]
  {
  }

  lemma UpdatedHandlers(hs: seq<Handler>, i: nat, h': Handler)
    requires i < |hs|
    ensures h' in hs[i := h']
    ensures forall h :: h in hs[i := h'] ==> h == h' || h in hs
    ensures forall h :: h in hs && h != hs[i] ==> h in hs[i := h']
  {
    assert hs[i := h'][i] == h';
    forall h | h in hs && h != hs[i] ensures h in hs[i := h'] {
      var k :| 0 <= k < |hs| && hs[k] == h;
      assert hs[i := h'][k] == h;
    }
  }

  lemma ApplyKeepsInv(m: Member, i: nat)
    requires Inv(m) && CanStep(m, Apply(i))
    ensures Inv(Next(m, Apply(i)))
  {
    var m' := Next(m, Apply(i));
    UpdatedHandlers(m.handlers, i, m'.handlers[i]);
    var h := m'.handlers[i];
    assert h in m'.handlers;
    assert BeforeCall(h) || HoldsLatestCall(m', h);
  }

  lemma RereadKeepsInv(m: Member, i: nat, deadLettered: bool)
    requires Inv(m) && CanStep(m, RereadRow(i, deadLettered))
    ensures Inv(Next(m, RereadRow(i, deadLettered)))
  {
    var m' := Next(m, RereadRow(i, deadLettered));
    var h := m.handlers[i];
    assert h in m.handlers;
    if LoginStateFor(m.row) == LoginStateFor(h.status) {
      UpdatedHandlers(m.handlers, i, Converged);
    } else if h.round < MAX_RECONCILE_ROUNDS {
      UpdatedHandlers(m.handlers, i, Applying(m.row, h.round + 1));
      assert BeforeCall(m'.handlers[i]);
    } else {
      RestHandlers(m.handlers, i);
    }
  }

  lemma StepKeepsInv(m: Member, step: Step)
    requires Inv(m) && CanStep(m, step)
    ensures Inv(Next(m, step))
  {
    var m' := Next(m, step);
    match step
    case Apply(i) => ApplyKeepsInv(m, i);
    case RereadRow(i, deadLettered) => RereadKeepsInv(m, i, deadLettered);
    case ReadRow(i) =>
      UpdatedHandlers(m.handlers, i, Applying(m.row, 1));
      assert BeforeCall(m'.handlers[i]);
    case ApplyUnanswered(i) => assert BeforeCall(m'.handlers[i]) && m'.handlers[i] in m'.handlers;
    case HandlerFails(i, _) => RestHandlers(m.handlers, i);
    case Delete(i) => RestHandlers(m.handlers, i);
    case Deliver(_) =>
      assert m'.handlers[|m.handlers|] == Reading;
      assert Reading in m'.handlers;
    case _ =>
  }

  lemma {:induction false} RunKeepsInv(m0: Member, steps: seq<Step>, m: Member)
    requires Inv(m0) && Run(m0, steps, m)
    ensures Inv(m)
    decreases |steps|
  {
    if steps != [] {
      StepKeepsInv(m0, steps[0]);
      RunKeepsInv(Next(m0, steps[0]), steps[1..], m);
    }
  }

  /** Login convergence: in every run, the login agrees with the row or an event for the member
      is still on its way; so once nothing is outstanding, members on leave or retired are locked out
      and active and probationary ones are not. */
  lemma LoginAgreesOrEventOutstanding(m0: Member, steps: seq<Step>, m: Member)
    requires Init(m0) && Run(m0, steps, m)
    ensures !Outstanding(m) ==> match m.row
      case LOA | RETIRED => m.login == Disabled
      case ACTIVE | PROBATIONARY => m.login == Enabled
      case OtherStatus(_) => true
  {
    assert Inv(m0);
    RunKeepsInv(m0, steps, m);
  }

  /** What one instance does to the login, and for which status it makes no call at all. */
  lemma ApplyDoes(m: Member, i: nat)
    requires CanStep(m, Apply(i))
    ensures var m' := Next(m, Apply(i)); var status := m.handlers[i].status;
      && m'.row == m.row && m'.outbox == m.outbox && m'.queue == m.queue && m'.failed == m.failed
      && match status
         case LOA | RETIRED => m'.login == Disabled && m'.calls == m.calls + 1
         case ACTIVE | PROBATIONARY => m'.login == Enabled && m'.calls == m.calls + 1
         case OtherStatus(_) => m'.login == m.login && m'.calls == m.calls
  {
  }

  /** What one instance does when it looks at the row again: it is done when the row still asks for what
      it did, tries again while it has made fewer than three rounds, and else gives the message back. */
  lemma RereadDoes(m: Member, i: nat, deadLettered: bool)
    requires CanStep(m, RereadRow(i, deadLettered))
    ensures var m' := Next(m, RereadRow(i, deadLettered)); var h := m.handlers[i];
      && m'.row == m.row && m'.login == m.login && m'.calls == m.calls && m'.outbox == m.outbox
      && if LoginStateFor(m.row) == LoginStateFor(h.status) then m' == m.(handlers := m.handlers[i := Converged])
         else if h.round < 3 then m' == m.(handlers := m.handlers[i := Applying(m.row, h.round + 1)])
         else
           && m'.handlers == m.handlers[..i] + m.handlers[i + 1..]
           && m'.failed == m.failed + (if deadLettered then 1 else 0)
           && m'.queue == m.queue + (if deadLettered then 0 else 1)
  {
  }

  // ---- Progress

  /** A step taken while nothing goes wrong: no new status, no failure, no duplicate. */
  predicate Calm(step: Step) {
    match step
    case ChangeStatus(_) | PublishFails | ApplyUnanswered(_) | HandlerFails(_, _) => false
    case Publish(duplicated) => !duplicated
    case Deliver(duplicated) => !duplicated
    case _ => true
  }

  /** How many calm steps a handler can still cause at most, given the row as it is. */
  function HandlerWeight(row: Status, h: Handler): nat {
    match h
    case Reading => 4
    case Applying(status, _) => if LoginStateFor(status) == LoginStateFor(row) then 3 else 8
    case Rereading(status, _, _) => if LoginStateFor(status) == LoginStateFor(row) then 2 else 7
    case Converged => 1
  }

  function HandlersWeight(row: Status, hs: seq<Handler>): nat {
    if hs == [] then 0 else HandlerWeight(row, hs[0]) + HandlersWeight(row, hs[1..])
  }

  function Weight(m: Member): nat {
    6 * m.outbox + 6 * m.failed + 5 * m.queue + HandlersWeight(m.row, m.handlers)
  }

  lemma {:induction false} HandlersWeightSplit(row: Status, a: seq<Handler>, b: seq<Handler>)
    ensures HandlersWeight(row, a + b) == HandlersWeight(row, a) + HandlersWeight(row, b)
  {
    if a == [] {
      assert a + b == b;
    } else {
      assert (a + b)[1..] == a[1..] + b;
      HandlersWeightSplit(row, a[1..], b);
    }
  }

  lemma HandlersWeightUpdate(row: Status, hs: seq<Handler>, i: nat, h': Handler)
    requires i < |hs|
    ensures HandlersWeight(row, hs[i := h'])
         == HandlersWeight(row, hs) - HandlerWeight(row, hs[i]) + HandlerWeight(row, h')
    ensures HandlersWeight(row, hs[..i] + hs[i + 1..])
         == HandlersWeight(row, hs) - HandlerWeight(row, hs[i])
  {
    var before, after := hs[..i], hs[i + 1..];
    assert hs == before + ([hs[i]] + after);
    assert hs[i := h'] == before + ([h'] + after);
    HandlersWeightSplit(row, before, [hs[i]] + after);
    HandlersWeightSplit(row, before, [h'] + after);
    HandlersWeightSplit(row, [hs[i]], after);
    HandlersWeightSplit(row, [h'], after);
    HandlersWeightSplit(row, before, after);
    assert [hs[i]] == [hs[i]] + [] && [h'] == [h'] + [];
  }

  lemma CalmApplyLowersWeight(m: Member, i: nat)
    requires CanStep(m, Apply(i))
    ensures Weight(Next(m, Apply(i))) < Weight(m)
  {
    HandlersWeightUpdate(m.row, m.handlers, i, Next(m, Apply(i)).handlers[i]);
  }

  lemma CalmRereadLowersWeight(m: Member, i: nat, deadLettered: bool)
    requires CanStep(m, RereadRow(i, deadLettered))
    ensures Weight(Next(m, RereadRow(i, deadLettered))) < Weight(m)
  {
    var h := m.handlers[i];
    HandlersWeightUpdate(m.row, m.handlers, i,
      if LoginStateFor(m.row) == LoginStateFor(h.status) then Converged else Applying(m.row, h.round + 1));
  }

  lemma CalmStepLowersWeight(m: Member, step: Step)
    requires CanStep(m, step) && Calm(step)
    ensures Weight(Next(m, step)) < Weight(m)
  {
    match step
    case Deliver(_) => HandlersWeightSplit(m.row, m.handlers, [Reading]);
    case ReadRow(i) => HandlersWeightUpdate(m.row, m.handlers, i, Applying(m.row, 1));
    case Apply(i) => CalmApplyLowersWeight(m, i);
    case RereadRow(i, deadLettered) => CalmRereadLowersWeight(m, i, deadLettered);
    case Delete(i) => HandlersWeightUpdate(m.row, m.handlers, i, Converged);
    case _ =>
  }

  lemma CalmStepExists(m: Member) returns (step: Step)
    requires Outstanding(m)
    ensures CanStep(m, step) && Calm(step)
  {
    if m.outbox > 0 {
      step := Publish(false);
    } else if m.queue > 0 {
      step := Deliver(false);
    } else if m.failed > 0 {
      step := Redrive;
    } else {
      match m.handlers[0]
      case Reading => step := ReadRow(0);
      case Applying(_, _) => step := Apply(0);
      case Rereading(_, _, _) => step := RereadRow(0, false);
      case Converged => step := Delete(0);
    }
  }

  lemma {:induction false} CalmRunIsBounded(m0: Member, steps: seq<Step>, m: Member)
    requires Run(m0, steps, m) && forall s :: s in steps ==> Calm(s)
    ensures |steps| <= Weight(m0) - Weight(m)
    decreases |steps|
  {
    if steps != [] {
      assert steps[0] in steps;
      CalmStepLowersWeight(m0, steps[0]);
      forall s | s in steps[1..] ensures Calm(s) { assert s in steps; }
      CalmRunIsBounded(Next(m0, steps[0]), steps[1..], m);
    }
  }

  /** Once statuses stop changing and calls stop failing, the work left is bounded whatever the
      interleaving, and where it stops the login agrees with the row. */
  lemma CalmRunsConverge(m0: Member, past: seq<Step>, m: Member, steps: seq<Step>, end: Member)
    requires Init(m0) && Run(m0, past, m)
    requires Run(m, steps, end) && forall s :: s in steps ==> Calm(s)
    ensures |steps| <= Weight(m)
    ensures (forall s :: Calm(s) ==> !CanStep(end, s)) ==> match end.row
      case LOA | RETIRED => end.login == Disabled
      case ACTIVE | PROBATIONARY => end.login == Enabled
      case OtherStatus(_) => true
  {
    CalmRunIsBounded(m, steps, end);
    RunKeepsInv(m0, past, m);
    RunKeepsInv(m, steps, end);
    if Outstanding(end) {
      var s := CalmStepExists(end);
      assert Calm(s) && CanStep(end, s);
    }
  }

  // ---- The whole roster

  type Roster = map<string, Member>

  ghost predicate RosterNext(r: Roster, r': Roster) {
    && r.Keys == r'.Keys
    && exists id, step ::
      && id in r && CanStep(r[id], step) && r'[id] == Next(r[id], step)
      && forall other :: other in r && other != id ==> r'[other] == r[other]
  }

  ghost predicate RosterRun(trace: seq<Roster>) {
    && trace != []
    && (forall id :: id in trace[0] ==> Init(trace[0][id]))
    && forall i {:trigger trace[i]} :: 0 <= i < |trace| - 1 ==> RosterNext(trace[i], trace[i + 1])
  }

  lemma {:induction false} RosterRunKeepsInv(trace: seq<Roster>, i: nat)
    requires RosterRun(trace) && i < |trace|
    ensures forall id :: id in trace[i] ==> Inv(trace[i][id])
  {
    if i > 0 {
      RosterRunKeepsInv(trace, i - 1);
      var r, r' := trace[i - 1], trace[i];
      assert RosterNext(r, r');
      var id, step :| && id in r && CanStep(r[id], step) && r'[id] == Next(r[id], step)
                      && forall other :: other in r && other != id ==> r'[other] == r[other];
      StepKeepsInv(r[id], step);
    }
  }

  /** With members' steps interleaved in any order: when no event is left anywhere, every login
      on the roster agrees with its row. */
  lemma QuiescentRosterAgrees(trace: seq<Roster>, i: nat)
    requires RosterRun(trace) && i < |trace|
    requires forall id :: id in trace[i] ==> !Outstanding(trace[i][id])
    ensures forall id :: id in trace[i] ==> match trace[i][id].row
      case LOA | RETIRED => trace[i][id].login == Disabled
      case ACTIVE | PROBATIONARY => trace[i][id].login == Enabled
      case OtherStatus(_) => true
  {
    RosterRunKeepsInv(trace, i);
  }
}
