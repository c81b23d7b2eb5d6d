/** From an EventBridge rule to a consumer: the target queue and the dead-letter queue with their
    policies, the retries, the redrive, the three metrics of failure, and the alarms over them.

    A rule presents its own ARN and nothing else. What becomes of an event follows from the two
    policies and from what the queues and the consumer answer, which is arbitrary. Copies are counted:
    an accepted send can go unanswered and be sent again, and a handled message can come again. */
module RuleDelivery {
  import opened Glob
  import opened SendPolicy

  // ---- The way of an event

  /** What the two queues' policies let the rule do, and the limits of the way: `window` and
      `maxAttempts` bound the rule's retries, `retention` is the queue's. */
  datatype Config = Config(
    queueAllows: bool,
    dlqAllows: bool,
    window: nat,
    maxAttempts: nat,
    maxReceiveCount: nat,
    retention: nat)

  /** A rule, its target queue and its dead-letter queue, as they are deployed. */
  datatype Wiring = Wiring(
    ruleArn: string,
    queueArn: string,
    queuePolicy: seq<SendStatement>,
    dlqArn: string,
    dlqPolicy: seq<SendStatement>)

  /** The rule sends under its own ARN, to either queue. */
  function Wired(w: Wiring, limits: Config): Config {
    limits.(
      queueAllows := SendAllowed(w.queuePolicy, EVENTS_SERVICE, SEND_MESSAGE, w.queueArn, w.ruleArn),
      dlqAllows := SendAllowed(w.dlqPolicy, EVENTS_SERVICE, SEND_MESSAGE, w.dlqArn, w.ruleArn))
  }

  datatype Pending = Pending(id: nat, matchedAt: nat, attempts: nat)

  datatype Message = Message(id: nat, matchedAt: nat, enqueuedAt: nat, seenAt: nat, receives: nat)

  datatype Fate = Consumed | DeadLettered | NotDelivered | NotDeadLettered | Expired

  datatype End = End(id: nat, fate: Fate, at: nat)

  /** Sums over minutes, and the depth of the dead-letter queue with its maxima over five minutes. */
  datatype Metrics = Metrics(
    failedInvocations: map<nat, nat>,
    dlqSendFailed: map<nat, nat>,
    dlqDepth: nat,
    dlqMaximum: map<nat, nat>)

  /** `matched` counts the events the rule matched, `doubled` the further copies made of them; both
      are histories, as is `ended`. */
  datatype State = State(
    now: nat,
    matched: multiset<nat>,
    doubled: multiset<nat>,
    atRule: seq<Pending>,
    queue: seq<Message>,
    ended: seq<End>,
    metrics: Metrics)

  const START := State(0, multiset{}, multiset{}, [], [], [], Metrics(map[], map[], 0, map[]))

  /** The queue's answer to a send. */
  datatype Answer = Accepts | AcceptsUnanswered | Busy | Gone

  datatype Handling = Handled | HandledUnanswered | Failed

  /** `deadLetters` says whether a send that failed for good is dead-lettered at all, `dlqTakes`
      whether the dead-letter queue can take it. */
  datatype Step =
    | Tick(seconds: nat)
    | Match(id: nat)
    | Attempt(i: nat, answer: Answer, deadLetters: bool, dlqTakes: bool)
    | GiveUp(i: nat, dlqTakes: bool)
    | Receive(i: nat, handling: Handling)
    | Expire(i: nat)
    | EmptyDlq

  /** The first attempt is always made, the others within the window. */
  predicate MayAttempt(c: Config, s: State, p: Pending) {
    p.attempts == 0 || (p.attempts < c.maxAttempts && s.now <= p.matchedAt + c.window)
  }

  predicate CanStep(c: Config, s: State, step: Step) {
    match step
    case Tick(_) | Match(_) | EmptyDlq => true
    case Attempt(i, _, _, _) => i < |s.atRule| && MayAttempt(c, s, s.atRule[i])
    case GiveUp(i, _) =>
      && i < |s.atRule| && s.atRule[i].attempts > 0
      && (s.atRule[i].attempts >= c.maxAttempts || s.now >= s.atRule[i].matchedAt + c.window)
    case Receive(i, _) => i < |s.queue|
    case Expire(i) => i < |s.queue| && s.queue[i].enqueuedAt + c.retention <= s.now
  }

  function Without<T>(xs: seq<T>, i: nat): seq<T>
    requires i < |xs|
  {
    xs[..i] + xs[i + 1..]
  }

  function At(m: map<nat, nat>, period: nat): nat {
    if period in m then m[period] else 0
  }

  function Raised(m: map<nat, nat>, period: nat, level: nat): map<nat, nat> {
    m[period := if At(m, period) < level then level else At(m, period)]
  }

  /** How many five-minute periods begin in that time. */
  function PeriodsPassed(now: nat, seconds: nat): nat {
    (now + seconds) / 300 - now / 300
  }

  /** The depth counts for every period it still stands in. */
  function Carried(m: map<nat, nat>, from: nat, further: nat, depth: nat): map<nat, nat>
    decreases further
  {
    if further == 0 then m else Carried(Raised(m, from + further, depth), from, further - 1, depth)
  }

  /** The copy ends, and the metric of its end moves. */
  function Finish(s: State, id: nat, fate: Fate): State {
    var m := s.metrics;
    var minute := s.now / 60;
    var depth := m.dlqDepth + 1;
    s.(ended := s.ended + [End(id, fate, s.now)],
       metrics := match fate
         case NotDelivered => m.(failedInvocations := m.failedInvocations[minute := At(m.failedInvocations, minute) + 1])
         case NotDeadLettered => m.(dlqSendFailed := m.dlqSendFailed[minute := At(m.dlqSendFailed, minute) + 1])
         case DeadLettered => m.(dlqDepth := depth, dlqMaximum := Raised(m.dlqMaximum, s.now / 300, depth))
         case _ => m)
  }

  /** What becomes of an event that is sent to the dead-letter queue. */
  function DeadLetterFate(c: Config, dlqTakes: bool): Fate {
    if c.dlqAllows && dlqTakes then DeadLettered else NotDeadLettered
  }

  /** What becomes of an event whose send failed for good. */
  function FailureFate(c: Config, deadLetters: bool, dlqTakes: bool): Fate {
    if deadLetters then DeadLetterFate(c, dlqTakes) else NotDelivered
  }

  /** One send: a queue that does not allow it, or is not there, fails it for good. */
  function Attempted(s: State, i: nat, allowed: bool, answer: Answer, failure: Fate): State
    requires i < |s.atRule|
  {
    var p := s.atRule[i];
    var again := s.atRule[i := p.(attempts := p.attempts + 1)];
    var accepted := s.queue + [Message(p.id, p.matchedAt, s.now, s.now, 0)];
    if !allowed || answer.Gone? then Finish(s.(atRule := Without(s.atRule, i)), p.id, failure)
    else match answer
      case Accepts => s.(atRule := Without(s.atRule, i), queue := accepted)
      case AcceptsUnanswered => s.(atRule := again, queue := accepted, doubled := s.doubled + multiset{p.id})
      case _ => s.(atRule := again)
  }

  /** One receive: past the redrive limit the message is dead-lettered by the queue itself. */
  function Received(s: State, i: nat, maxReceiveCount: nat, handling: Handling): State
    requires i < |s.queue|
  {
    var m := s.queue[i];
    var again := s.queue[i := m.(seenAt := s.now, receives := m.receives + 1)];
    if m.receives >= maxReceiveCount then Finish(s.(queue := Without(s.queue, i)), m.id, DeadLettered)
    else match handling
      case Handled => Finish(s.(queue := Without(s.queue, i)), m.id, Consumed)
      case HandledUnanswered => Finish(s.(queue := again, doubled := s.doubled + multiset{m.id}), m.id, Consumed)
      case Failed => s.(queue := again)
  }

  function Next(c: Config, s: State, step: Step): State
    requires CanStep(c, s, step)
  {
    match step
    case Tick(seconds) =>
      s.(now := s.now + seconds, metrics := s.metrics.(dlqMaximum :=
        Carried(s.metrics.dlqMaximum, s.now / 300, PeriodsPassed(s.now, seconds), s.metrics.dlqDepth)))
    case Match(id) => s.(matched := s.matched + multiset{id}, atRule := s.atRule + [Pending(id, s.now, 0)])
    case Attempt(i, answer, deadLetters, dlqTakes) =>
      Attempted(s, i, c.queueAllows, answer, FailureFate(c, deadLetters, dlqTakes))
    case GiveUp(i, dlqTakes) =>
      Finish(s.(atRule := Without(s.atRule, i)), s.atRule[i].id, DeadLetterFate(c, dlqTakes))
    case Receive(i, handling) => Received(s, i, c.maxReceiveCount, handling)
    case Expire(i) => Finish(s.(queue := Without(s.queue, i)), s.queue[i].id, Expired)
    case EmptyDlq => s.(metrics := s.metrics.(dlqDepth := 0))
  }

  /** A run: a state before each step and one after the last. */
  ghost predicate Run(c: Config, states: seq<State>, steps: seq<Step>) {
    && |states| == |steps| + 1
    && states[0] == START
    && forall k :: 0 <= k < |steps| ==> CanStep(c, states[k], steps[k]) && states[k + 1] == Next(c, states[k], steps[k])
  }

  // ---- Every copy is somewhere

  function RuleIds(ps: seq<Pending>): (ids: seq<nat>)
    ensures |ids| == |ps|
  {
    seq(|ps|, i requires 0 <= i < |ps| => ps[i].id)
  }

  function QueueIds(ms: seq<Message>): (ids: seq<nat>)
    ensures |ids| == |ms|
  {
    seq(|ms|, i requires 0 <= i < |ms| => ms[i].id)
  }

  function EndedIds(es: seq<End>): (ids: seq<nat>)
    ensures |ids| == |es|
  {
    seq(|es|, i requires 0 <= i < |es| => es[i].id)
  }

  lemma BagWithout(ids: seq<nat>, i: nat)
    requires i < |ids|
    ensures multiset(ids) == multiset(Without(ids, i)) + multiset{ids[i]}
  {
    assert ids == ids[..i] + [ids[i]] + ids[i + 1..];
  }

  lemma RuleIdsAt(ps: seq<Pending>, i: nat, p: Pending)
    requires i < |ps|
    ensures multiset(RuleIds(ps)) == multiset(RuleIds(Without(ps, i))) + multiset{ps[i].id}
    ensures p.id == ps[i].id ==> RuleIds(ps[i := p]) == RuleIds(ps)
  {
    BagWithout(RuleIds(ps), i);
    assert RuleIds(Without(ps, i)) == Without(RuleIds(ps), i);
  }

  lemma QueueIdsAt(ms: seq<Message>, i: nat, m: Message)
    requires i < |ms|
    ensures multiset(QueueIds(ms)) == multiset(QueueIds(Without(ms, i))) + multiset{ms[i].id}
    ensures m.id == ms[i].id ==> QueueIds(ms[i := m]) == QueueIds(ms)
  {
    BagWithout(QueueIds(ms), i);
    assert QueueIds(Without(ms, i)) == Without(QueueIds(ms), i);
  }

  lemma OneMore(ps: seq<Pending>, p: Pending, ms: seq<Message>, m: Message)
    ensures multiset(RuleIds(ps + [p])) == multiset(RuleIds(ps)) + multiset{p.id}
    ensures multiset(QueueIds(ms + [m])) == multiset(QueueIds(ms)) + multiset{m.id}
  {
    assert RuleIds(ps + [p]) == RuleIds(ps) + [p.id];
    assert QueueIds(ms + [m]) == QueueIds(ms) + [m.id];
  }

  /** Matched events and copies are at the rule, in the queue, or have ended. */
  predicate Conserved(s: State) {
    Balanced(s.matched + s.doubled,
             multiset(RuleIds(s.atRule)), multiset(QueueIds(s.queue)), multiset(EndedIds(s.ended)))
  }

  predicate Balanced(all: multiset<nat>, rule: multiset<nat>, queue: multiset<nat>, ended: multiset<nat>) {
    all == rule + queue + ended
  }

  lemma OneMoves(all: multiset<nat>, a: multiset<nat>, b: multiset<nat>, e: multiset<nat>, id: nat)
    ensures Balanced(all, a + multiset{id}, b, e) ==>
      Balanced(all, a, b + multiset{id}, e) && Balanced(all, a, b, e + multiset{id})
    ensures Balanced(all, a, b + multiset{id}, e) ==> Balanced(all, a, b, e + multiset{id})
    ensures Balanced(all, a, b, e) ==>
      && Balanced(all + multiset{id}, a + multiset{id}, b, e)
      && Balanced(all + multiset{id}, a, b + multiset{id}, e)
      && Balanced(all + multiset{id}, a, b, e + multiset{id})
  {
  }

  lemma OneDoubled(s: State, id: nat)
    ensures s.matched + (s.doubled + multiset{id}) == s.matched + s.doubled + multiset{id}
    ensures s.matched + multiset{id} + s.doubled == s.matched + s.doubled + multiset{id}
  {
  }

  lemma FinishIds(s: State, id: nat, fate: Fate)
    ensures multiset(EndedIds(Finish(s, id, fate).ended)) == multiset(EndedIds(s.ended)) + multiset{id}
  {
    assert EndedIds(Finish(s, id, fate).ended) == EndedIds(s.ended) + [id];
  }

  lemma LeavingRuleConserves(s: State, i: nat, fate: Fate)
    requires Conserved(s) && i < |s.atRule|
    ensures Conserved(Finish(s.(atRule := Without(s.atRule, i)), s.atRule[i].id, fate))
  {
    RuleIdsAt(s.atRule, i, s.atRule[i]);
    FinishIds(s.(atRule := Without(s.atRule, i)), s.atRule[i].id, fate);
    OneMoves(s.matched + s.doubled, multiset(RuleIds(Without(s.atRule, i))), multiset(QueueIds(s.queue)),
             multiset(EndedIds(s.ended)), s.atRule[i].id);
  }

  lemma AcceptedConserves(s: State, i: nat, m: Message)
    requires Conserved(s) && i < |s.atRule| && m.id == s.atRule[i].id
    ensures Conserved(s.(atRule := Without(s.atRule, i), queue := s.queue + [m]))
  {
    RuleIdsAt(s.atRule, i, s.atRule[i]);
    OneMore(s.atRule, s.atRule[i], s.queue, m);
    OneMoves(s.matched + s.doubled, multiset(RuleIds(Without(s.atRule, i))), multiset(QueueIds(s.queue)),
             multiset(EndedIds(s.ended)), m.id);
  }

  lemma RetriedConserves(s: State, i: nat, p: Pending)
    requires Conserved(s) && i < |s.atRule| && p.id == s.atRule[i].id
    ensures Conserved(s.(atRule := s.atRule[i := p]))
  {
    RuleIdsAt(s.atRule, i, p);
  }

  lemma DoubledConserves(s: State, i: nat, p: Pending, m: Message)
    requires Conserved(s) && i < |s.atRule| && m.id == p.id == s.atRule[i].id
    ensures Conserved(s.(atRule := s.atRule[i := p], queue := s.queue + [m], doubled := s.doubled + multiset{p.id}))
  {
    RuleIdsAt(s.atRule, i, p);
    OneMore(s.atRule, p, s.queue, m);
    OneDoubled(s, p.id);
    OneMoves(s.matched + s.doubled, multiset(RuleIds(s.atRule)), multiset(QueueIds(s.queue)),
             multiset(EndedIds(s.ended)), p.id);
  }

  lemma AttemptConserves(s: State, i: nat, allowed: bool, answer: Answer, failure: Fate)
    requires Conserved(s) && i < |s.atRule|
    ensures Conserved(Attempted(s, i, allowed, answer, failure))
  {
    var p := s.atRule[i];
    var m := Message(p.id, p.matchedAt, s.now, s.now, 0);
    var again := p.(attempts := p.attempts + 1);
    if !allowed || answer.Gone? {
      LeavingRuleConserves(s, i, failure);
    } else {
      match answer
      case Accepts => AcceptedConserves(s, i, m);
      case AcceptsUnanswered => DoubledConserves(s, i, again, m);
      case _ => RetriedConserves(s, i, again);
    }
  }

  lemma LeavingQueueConserves(s: State, i: nat, fate: Fate)
    requires Conserved(s) && i < |s.queue|
    ensures Conserved(Finish(s.(queue := Without(s.queue, i)), s.queue[i].id, fate))
  {
    QueueIdsAt(s.queue, i, s.queue[i]);
    FinishIds(s.(queue := Without(s.queue, i)), s.queue[i].id, fate);
    OneMoves(s.matched + s.doubled, multiset(RuleIds(s.atRule)), multiset(QueueIds(Without(s.queue, i))),
             multiset(EndedIds(s.ended)), s.queue[i].id);
  }

  lemma StayingConserves(s: State, i: nat, m: Message, fate: Fate)
    requires Conserved(s) && i < |s.queue| && m.id == s.queue[i].id
    ensures Conserved(s.(queue := s.queue[i := m]))
    ensures Conserved(Finish(s.(queue := s.queue[i := m], doubled := s.doubled + multiset{m.id}), m.id, fate))
  {
    QueueIdsAt(s.queue, i, m);
    FinishIds(s.(queue := s.queue[i := m], doubled := s.doubled + multiset{m.id}), m.id, fate);
    OneDoubled(s, m.id);
    OneMoves(s.matched + s.doubled, multiset(RuleIds(s.atRule)), multiset(QueueIds(s.queue)),
             multiset(EndedIds(s.ended)), m.id);
  }

  lemma ReceiveConserves(s: State, i: nat, maxReceiveCount: nat, handling: Handling)
    requires Conserved(s) && i < |s.queue|
    ensures Conserved(Received(s, i, maxReceiveCount, handling))
  {
    var m := s.queue[i];
    if m.receives >= maxReceiveCount {
      LeavingQueueConserves(s, i, DeadLettered);
    } else if handling.Handled? {
      LeavingQueueConserves(s, i, Consumed);
    } else {
      StayingConserves(s, i, m.(seenAt := s.now, receives := m.receives + 1), Consumed);
    }
  }

  lemma MatchConserves(s: State, id: nat)
    requires Conserved(s)
    ensures Conserved(s.(matched := s.matched + multiset{id}, atRule := s.atRule + [Pending(id, s.now, 0)]))
  {
    OneMore(s.atRule, Pending(id, s.now, 0), [], Message(0, 0, 0, 0, 0));
    OneDoubled(s, id);
    OneMoves(s.matched + s.doubled, multiset(RuleIds(s.atRule)), multiset(QueueIds(s.queue)),
             multiset(EndedIds(s.ended)), id);
  }

  lemma StepConserves(c: Config, s: State, step: Step)
    requires Conserved(s) && CanStep(c, s, step)
    ensures Conserved(Next(c, s, step))
  {
    match step
    case Attempt(i, answer, deadLetters, dlqTakes) =>
      AttemptConserves(s, i, c.queueAllows, answer, FailureFate(c, deadLetters, dlqTakes));
    case Receive(i, handling) => ReceiveConserves(s, i, c.maxReceiveCount, handling);
    case Expire(i) => LeavingQueueConserves(s, i, Expired);
    case GiveUp(i, dlqTakes) => LeavingRuleConserves(s, i, DeadLetterFate(c, dlqTakes));
    case Match(id) => MatchConserves(s, id);
    case _ =>
  }

  /** In every run each event the rule matched, and each further copy made of it, is waiting at the
      rule, in the queue, or has ended in one way: none is lost and none appears. */
  lemma {:induction false} EveryCopyIsSomewhere(c: Config, states: seq<State>, steps: seq<Step>, k: nat)
    requires Run(c, states, steps) && k < |states|
    ensures Conserved(states[k])
    decreases k
  {
    if k > 0 {
      EveryCopyIsSomewhere(c, states, steps, k - 1);
      StepConserves(c, states[k - 1], steps[k - 1]);
    }
  }

  // ---- The metrics and the alarms

  /** How many ended in that way in a period of that length. */
  function EndedIn(es: seq<End>, fate: Fate, length: nat, period: nat): nat
    requires length > 0
  {
    if es == [] then 0
    else
      var last := es[|es| - 1];
      EndedIn(es[..|es| - 1], fate, length, period) + if last.fate == fate && last.at / length == period then 1 else 0
  }

  lemma {:induction false} EndedInSome(es: seq<End>, fate: Fate, length: nat, period: nat)
    requires length > 0
    ensures EndedIn(es, fate, length, period) > 0 <==>
      exists e :: e in es && e.fate == fate && e.at / length == period
    decreases |es|
  {
    if es != [] {
      EndedInSome(es[..|es| - 1], fate, length, period);
      assert es == es[..|es| - 1] + [es[|es| - 1]];
    }
  }

  /** Each sum counts the ends it is about; the depth's maximum is at least one in any period in which
      something was dead-lettered, and more than zero only after something was. */
  ghost predicate Measured(s: State) {
    var m := s.metrics;
    && (forall p :: At(m.failedInvocations, p) == EndedIn(s.ended, NotDelivered, 60, p))
    && (forall p :: At(m.dlqSendFailed, p) == EndedIn(s.ended, NotDeadLettered, 60, p))
    && (forall p :: EndedIn(s.ended, DeadLettered, 300, p) > 0 ==> At(m.dlqMaximum, p) > 0)
    && (forall p :: At(m.dlqMaximum, p) > 0 ==> exists e :: e in s.ended && e.fate == DeadLettered && e.at / 300 <= p)
    && (m.dlqDepth > 0 ==> exists e :: e in s.ended && e.fate == DeadLettered && e.at <= s.now)
  }

  lemma {:induction false} CarriedAt(m: map<nat, nat>, from: nat, further: nat, depth: nat, p: nat)
    ensures At(Carried(m, from, further, depth), p) >= At(m, p)
    ensures At(Carried(m, from, further, depth), p) > At(m, p) ==> from < p && depth > 0
    decreases further
  {
    if further > 0 {
      CarriedAt(Raised(m, from + further, depth), from, further - 1, depth, p);
    }
  }

  lemma TickMeasures(c: Config, s: State, seconds: nat)
    requires Measured(s)
    ensures Measured(Next(c, s, Tick(seconds)))
  {
    var s' := Next(c, s, Tick(seconds));
    forall p ensures At(s'.metrics.dlqMaximum, p) >= At(s.metrics.dlqMaximum, p)
      && (At(s'.metrics.dlqMaximum, p) > 0 ==> exists e :: e in s'.ended && e.fate == DeadLettered && e.at / 300 <= p)
    {
      CarriedAt(s.metrics.dlqMaximum, s.now / 300, PeriodsPassed(s.now, seconds), s.metrics.dlqDepth, p);
    }
  }

  lemma EndCounts(s: State, id: nat, fate: Fate, other: Fate, length: nat, p: nat)
    requires length > 0
    ensures EndedIn(Finish(s, id, fate).ended, other, length, p)
         == EndedIn(s.ended, other, length, p) + if fate == other && s.now / length == p then 1 else 0
  {
    assert Finish(s, id, fate).ended[..|s.ended|] == s.ended;
  }

  lemma FinishSums(s: State, id: nat, fate: Fate, p: nat)
    requires Measured(s)
    ensures At(Finish(s, id, fate).metrics.failedInvocations, p) == EndedIn(Finish(s, id, fate).ended, NotDelivered, 60, p)
    ensures At(Finish(s, id, fate).metrics.dlqSendFailed, p) == EndedIn(Finish(s, id, fate).ended, NotDeadLettered, 60, p)
  {
    EndCounts(s, id, fate, NotDelivered, 60, p);
    EndCounts(s, id, fate, NotDeadLettered, 60, p);
  }

  lemma FinishDepth(s: State, id: nat, fate: Fate, p: nat)
    requires Measured(s)
    ensures var s' := Finish(s, id, fate);
      && (EndedIn(s'.ended, DeadLettered, 300, p) > 0 ==> At(s'.metrics.dlqMaximum, p) > 0)
      && (At(s'.metrics.dlqMaximum, p) > 0 ==> exists e :: e in s'.ended && e.fate == DeadLettered && e.at / 300 <= p)
  {
    var s' := Finish(s, id, fate);
    EndCounts(s, id, fate, DeadLettered, 300, p);
    assert End(id, fate, s.now) in s'.ended && forall e :: e in s.ended ==> e in s'.ended;
  }

  lemma FinishMeasures(s: State, id: nat, fate: Fate)
    requires Measured(s)
    ensures Measured(Finish(s, id, fate))
  {
    var s' := Finish(s, id, fate);
    assert End(id, fate, s.now) in s'.ended && forall e :: e in s.ended ==> e in s'.ended;
    forall p
      ensures At(s'.metrics.failedInvocations, p) == EndedIn(s'.ended, NotDelivered, 60, p)
      ensures At(s'.metrics.dlqSendFailed, p) == EndedIn(s'.ended, NotDeadLettered, 60, p)
    {
      FinishSums(s, id, fate, p);
    }
    forall p
      ensures EndedIn(s'.ended, DeadLettered, 300, p) > 0 ==> At(s'.metrics.dlqMaximum, p) > 0
      ensures At(s'.metrics.dlqMaximum, p) > 0 ==> exists e :: e in s'.ended && e.fate == DeadLettered && e.at / 300 <= p
    {
      FinishDepth(s, id, fate, p);
    }
  }

  lemma AttemptMeasures(s: State, i: nat, allowed: bool, answer: Answer, failure: Fate)
    requires Measured(s) && i < |s.atRule|
    ensures Measured(Attempted(s, i, allowed, answer, failure))
  {
    FinishMeasures(s.(atRule := Without(s.atRule, i)), s.atRule[i].id, failure);
  }

  lemma ReceiveMeasures(s: State, i: nat, maxReceiveCount: nat, handling: Handling)
    requires Measured(s) && i < |s.queue|
    ensures Measured(Received(s, i, maxReceiveCount, handling))
  {
    var m := s.queue[i];
    var again := s.queue[i := m.(seenAt := s.now, receives := m.receives + 1)];
    if m.receives >= maxReceiveCount {
      FinishMeasures(s.(queue := Without(s.queue, i)), m.id, DeadLettered);
    } else if handling.Handled? {
      FinishMeasures(s.(queue := Without(s.queue, i)), m.id, Consumed);
    } else {
      FinishMeasures(s.(queue := again, doubled := s.doubled + multiset{m.id}), m.id, Consumed);
    }
  }

  lemma StepMeasures(c: Config, s: State, step: Step)
    requires Measured(s) && CanStep(c, s, step)
    ensures Measured(Next(c, s, step))
  {
    match step
    case Tick(seconds) => TickMeasures(c, s, seconds);
    case Attempt(i, answer, deadLetters, dlqTakes) =>
      AttemptMeasures(s, i, c.queueAllows, answer, FailureFate(c, deadLetters, dlqTakes));
    case GiveUp(i, dlqTakes) =>
      FinishMeasures(s.(atRule := Without(s.atRule, i)), s.atRule[i].id, DeadLetterFate(c, dlqTakes));
    case Receive(i, handling) => ReceiveMeasures(s, i, c.maxReceiveCount, handling);
    case Expire(i) => FinishMeasures(s.(queue := Without(s.queue, i)), s.queue[i].id, Expired);
    case _ =>
  }

  lemma {:induction false} RunMeasures(c: Config, states: seq<State>, steps: seq<Step>, k: nat)
    requires Run(c, states, steps) && k < |states|
    ensures Measured(states[k])
    decreases k
  {
    if k > 0 {
      RunMeasures(c, states, steps, k - 1);
      StepMeasures(c, states[k - 1], steps[k - 1]);
    }
  }

  /** The alarms: a sum above zero within a minute, a depth above zero within five. */
  predicate FailedInvocationsAlarm(s: State, minute: nat) {
    At(s.metrics.failedInvocations, minute) > 0
  }

  predicate DlqSendFailedAlarm(s: State, minute: nat) {
    At(s.metrics.dlqSendFailed, minute) > 0
  }

  predicate DlqDepthAlarm(s: State, period: nat) {
    At(s.metrics.dlqMaximum, period) > 0
  }

  /** The two lost-event alarms are over their thresholds in exactly the minutes in which an event was
      lost in their way; the depth alarm is in every period in which one was dead-lettered, whatever
      empties the queue afterwards, and in none before the first was. */
  lemma AlarmsAreExact(c: Config, states: seq<State>, steps: seq<Step>, k: nat, period: nat)
    requires Run(c, states, steps) && k < |states|
    ensures FailedInvocationsAlarm(states[k], period) <==>
      exists e :: e in states[k].ended && e.fate == NotDelivered && e.at / 60 == period
    ensures DlqSendFailedAlarm(states[k], period) <==>
      exists e :: e in states[k].ended && e.fate == NotDeadLettered && e.at / 60 == period
    ensures (exists e :: e in states[k].ended && e.fate == DeadLettered && e.at / 300 == period) ==>
      DlqDepthAlarm(states[k], period)
    ensures DlqDepthAlarm(states[k], period) ==>
      exists e :: e in states[k].ended && e.fate == DeadLettered && e.at / 300 <= period
  {
    RunMeasures(c, states, steps, k);
    EndedInSome(states[k].ended, NotDelivered, 60, period);
    EndedInSome(states[k].ended, NotDeadLettered, 60, period);
    EndedInSome(states[k].ended, DeadLettered, 300, period);
  }

  /** So no event ends unconsumed without its alarm, but for one that expired in the queue. */
  lemma DeliveryIsNeverSilent(c: Config, states: seq<State>, steps: seq<Step>, k: nat, e: End)
    requires Run(c, states, steps) && k < |states| && e in states[k].ended
    ensures match e.fate
      case NotDelivered => FailedInvocationsAlarm(states[k], e.at / 60)
      case NotDeadLettered => DlqSendFailedAlarm(states[k], e.at / 60)
      case DeadLettered => DlqDepthAlarm(states[k], e.at / 300)
      case _ => true
  {
    AlarmsAreExact(c, states, steps, k, e.at / 60);
    AlarmsAreExact(c, states, steps, k, e.at / 300);
  }

  // ---- A policy that names another ARN

  /** Nothing was ever accepted: every event is at the rule, unsent, or was counted as it failed. */
  ghost predicate Refused(c: Config, s: State) {
    && s.queue == [] && s.doubled == multiset{}
    && (forall p :: p in s.atRule ==> p.attempts == 0)
    && (forall e :: e in s.ended ==>
          e.fate == NotDelivered || e.fate == NotDeadLettered || (e.fate == DeadLettered && c.dlqAllows))
  }

  lemma StepKeepsRefused(c: Config, s: State, step: Step)
    requires !c.queueAllows && Refused(c, s) && CanStep(c, s, step)
    ensures Refused(c, Next(c, s, step))
  {
    match step
    case GiveUp(i, _) => RefusedIsUnsent(c, s, i);
    case Attempt(i, answer, deadLetters, dlqTakes) =>
      RefusedAttempt(c, s, i, answer, FailureFate(c, deadLetters, dlqTakes));
    case _ =>
  }

  lemma RefusedIsUnsent(c: Config, s: State, i: nat)
    requires Refused(c, s) && i < |s.atRule|
    ensures s.atRule[i].attempts == 0
  {
  }

  lemma RefusedAttempt(c: Config, s: State, i: nat, answer: Answer, failure: Fate)
    requires Refused(c, s) && i < |s.atRule|
    requires failure == NotDelivered || failure == NotDeadLettered || (failure == DeadLettered && c.dlqAllows)
    ensures Refused(c, Attempted(s, i, false, answer, failure))
  {
    var left := Without(s.atRule, i);
    forall p | p in left ensures p in s.atRule {}
  }

  lemma {:induction false} RunKeepsRefused(c: Config, states: seq<State>, steps: seq<Step>, k: nat)
    requires !c.queueAllows && Run(c, states, steps) && k < |states|
    ensures Refused(c, states[k])
    decreases k
  {
    if k > 0 {
      RunKeepsRefused(c, states, steps, k - 1);
      StepKeepsRefused(c, states[k - 1], steps[k - 1]);
    }
  }

  function AllEndedIn(es: seq<End>, length: nat, period: nat): nat
    requires length > 0
  {
    if es == [] then 0
    else AllEndedIn(es[..|es| - 1], length, period) + if es[|es| - 1].at / length == period then 1 else 0
  }

  lemma {:induction false} LostEndsAdd(es: seq<End>, length: nat, period: nat)
    requires length > 0 && forall e :: e in es ==> e.fate == NotDelivered || e.fate == NotDeadLettered
    ensures AllEndedIn(es, length, period)
         == EndedIn(es, NotDelivered, length, period) + EndedIn(es, NotDeadLettered, length, period)
    decreases |es|
  {
    if es != [] {
      assert es[|es| - 1] in es;
      LostEndsAdd(es[..|es| - 1], length, period);
    }
  }

  /** When the queue's policy refuses the rule nothing is ever queued or consumed; when the dead-letter
      queue's does as well, every event that is no longer at the rule is counted, in the minute it was
      lost, by one of the two lost-event metrics. */
  lemma RefusedEventsAreCounted(c: Config, states: seq<State>, steps: seq<Step>, k: nat, minute: nat)
    requires Run(c, states, steps) && k < |states| && !c.queueAllows
    ensures states[k].queue == [] && forall e :: e in states[k].ended ==> e.fate != Consumed
    ensures states[k].matched == multiset(RuleIds(states[k].atRule)) + multiset(EndedIds(states[k].ended))
    ensures !c.dlqAllows ==>
      At(states[k].metrics.failedInvocations, minute) + At(states[k].metrics.dlqSendFailed, minute)
        == AllEndedIn(states[k].ended, 60, minute)
  {
    RunKeepsRefused(c, states, steps, k);
    EveryCopyIsSomewhere(c, states, steps, k);
    NoneQueued(states[k]);
    if !c.dlqAllows {
      LostEndsAdd(states[k].ended, 60, minute);
      RunMeasures(c, states, steps, k);
    }
  }

  lemma NoneQueued(s: State)
    requires Conserved(s) && s.queue == [] && s.doubled == multiset{}
    ensures s.matched == multiset(RuleIds(s.atRule)) + multiset(EndedIds(s.ended))
  {
    assert QueueIds(s.queue) == [];
    assert s.matched + s.doubled == s.matched;
  }

  ghost predicate Consumes(c: Config) {
    exists states: seq<State>, steps: seq<Step>, k: nat, e: End ::
      Run(c, states, steps) && k < |states| && e in states[k].ended && e.fate == Consumed
  }

  lemma SentAndConsumed(s: State, maxReceiveCount: nat)
    requires s.now == 0 && s.atRule == [Pending(0, 0, 0)] && s.queue == [] && s.ended == [] && maxReceiveCount > 0
    ensures var sent := Attempted(s, 0, true, Accepts, NotDelivered);
      && sent.queue == [Message(0, 0, 0, 0, 0)]
      && Received(sent, 0, maxReceiveCount, Handled).ended == [End(0, Consumed, 0)]
  {
    var sent := Attempted(s, 0, true, Accepts, NotDelivered);
    assert sent.queue == [Message(0, 0, 0, 0, 0)];
  }

  lemma ConsumedRun(c: Config) returns (states: seq<State>, steps: seq<Step>)
    requires c.queueAllows && c.maxReceiveCount > 0
    ensures Run(c, states, steps) && |steps| == 3 && End(0, Consumed, 0) in states[3].ended
  {
    steps := [Match(0), Attempt(0, Accepts, false, false), Receive(0, Handled)];
    var s1 := Next(c, START, steps[0]);
    SentAndConsumed(s1, c.maxReceiveCount);
    var s2 := Next(c, s1, steps[1]);
    var s3 := Next(c, s2, steps[2]);
    states := [START, s1, s2, s3];
  }

  lemma ConsumesIffAllowed(c: Config)
    requires c.maxReceiveCount > 0
    ensures Consumes(c) <==> c.queueAllows
  {
    if c.queueAllows {
      var states, steps := ConsumedRun(c);
      assert Run(c, states, steps) && 3 < |states| && End(0, Consumed, 0) in states[3].ended;
    } else {
      forall states: seq<State>, steps: seq<Step>, k: nat, e: End |
        Run(c, states, steps) && k < |states| && e in states[k].ended
        ensures e.fate != Consumed
      {
        RefusedEventsAreCounted(c, states, steps, k, 0);
      }
    }
  }

  /** Anything at all is consumed exactly when the queue's policy names the rule's own ARN. */
  lemma ConsumesIffTheRuleIsNamed(w: Wiring, limits: Config, named: string)
    requires w.queuePolicy == RuleSendPolicy(w.queueArn, named) && limits.maxReceiveCount > 0
    requires Literal(w.queueArn) && Literal(named) && IsArn(named)
    ensures Consumes(Wired(w, limits)) <==> named == w.ruleArn
  {
    OnlyTheRuleMaySend(w.queueArn, named, EVENTS_SERVICE, SEND_MESSAGE, w.queueArn, w.ruleArn);
    ConsumesIffAllowed(Wired(w, limits));
  }

  /** When both policies name another ARN than the rule's, its bus for one, nothing is queued or
      consumed in any run, and every event that is no longer at the rule was counted in its minute. */
  lemma NamingAnotherArnIsCounted(
    w: Wiring, limits: Config, named: string, states: seq<State>, steps: seq<Step>, k: nat, minute: nat)
    requires w.queuePolicy == RuleSendPolicy(w.queueArn, named) && w.dlqPolicy == RuleSendPolicy(w.dlqArn, named)
    requires Literal(w.queueArn) && Literal(w.dlqArn) && Literal(named) && IsArn(named) && named != w.ruleArn
    requires Run(Wired(w, limits), states, steps) && k < |states|
    ensures states[k].queue == [] && forall e :: e in states[k].ended ==> e.fate != Consumed
    ensures states[k].matched == multiset(RuleIds(states[k].atRule)) + multiset(EndedIds(states[k].ended))
    ensures At(states[k].metrics.failedInvocations, minute) + At(states[k].metrics.dlqSendFailed, minute)
         == AllEndedIn(states[k].ended, 60, minute)
  {
    NamesRefuse(w, limits, named);
    RefusedEventsAreCounted(Wired(w, limits), states, steps, k, minute);
  }

  lemma NamesRefuse(w: Wiring, limits: Config, named: string)
    requires w.queuePolicy == RuleSendPolicy(w.queueArn, named) && w.dlqPolicy == RuleSendPolicy(w.dlqArn, named)
    requires Literal(w.queueArn) && Literal(w.dlqArn) && Literal(named) && IsArn(named) && named != w.ruleArn
    ensures !Wired(w, limits).queueAllows && !Wired(w, limits).dlqAllows
  {
    OnlyTheRuleMaySend(w.queueArn, named, EVENTS_SERVICE, SEND_MESSAGE, w.queueArn, w.ruleArn);
    OnlyTheRuleMaySend(w.dlqArn, named, EVENTS_SERVICE, SEND_MESSAGE, w.dlqArn, w.ruleArn);
  }

  /** So a policy that names the rule's bus consumes nothing. */
  lemma NamingTheBusConsumesNothing(w: Wiring, limits: Config, prefix: string, bus: string, rule: string)
    requires w.ruleArn == RuleArn(prefix, bus, rule) && limits.maxReceiveCount > 0
    requires w.queuePolicy == RuleSendPolicy(w.queueArn, BusArn(prefix, bus))
    requires Literal(w.queueArn) && Literal(BusArn(prefix, bus)) && IsArn(BusArn(prefix, bus))
    ensures !Consumes(Wired(w, limits))
  {
    BusIsNotItsRule(prefix, bus, rule);
    ConsumesIffTheRuleIsNamed(w, limits, BusArn(prefix, bus));
  }
}
