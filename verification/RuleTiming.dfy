/** How long an event of a rule can be on its way: every event ends, and no later than the retries and
    the receives take together. */
module RuleTiming {
  import opened RuleDelivery

  /** Retries stop with the window, and no message waits longer than `gap` for its next receive. */
  predicate Prompt(c: Config, gap: nat, s: State, step: Step) {
    step.Tick? ==>
      && (forall p :: p in s.atRule ==> s.now + step.seconds <= p.matchedAt + c.window)
      && (forall m :: m in s.queue ==> s.now + step.seconds <= m.seenAt + gap)
  }

  ghost predicate PromptRun(c: Config, gap: nat, states: seq<State>, steps: seq<Step>) {
    Run(c, states, steps) && forall k :: 0 <= k < |steps| ==> Prompt(c, gap, states[k], steps[k])
  }

  predicate TimelyMessage(c: Config, gap: nat, now: nat, m: Message) {
    && m.receives <= c.maxReceiveCount
    && m.matchedAt <= m.enqueuedAt <= m.matchedAt + c.window
    && m.enqueuedAt <= m.seenAt <= m.enqueuedAt + m.receives * gap
    && m.seenAt <= now <= m.seenAt + gap
  }

  predicate Timely(c: Config, gap: nat, s: State) {
    && (forall p :: p in s.atRule ==> p.matchedAt <= s.now <= p.matchedAt + c.window)
    && (forall m :: m in s.queue ==> TimelyMessage(c, gap, s.now, m))
  }

  lemma Remaining<T>(xs: seq<T>, i: nat, y: T)
    requires i < |xs|
    ensures forall x :: x in Without(xs, i) ==> x in xs
    ensures forall x :: x in xs[i := y] ==> x == y || x in xs
  {
  }

  lemma AttemptIsTimely(c: Config, gap: nat, s: State, i: nat, allowed: bool, answer: Answer, failure: Fate)
    requires Timely(c, gap, s) && i < |s.atRule|
    ensures Timely(c, gap, Attempted(s, i, allowed, answer, failure))
  {
    var p := s.atRule[i];
    assert p in s.atRule;
    Remaining(s.atRule, i, p.(attempts := p.attempts + 1));
  }

  lemma AgeBound(receives: nat, max: nat, gap: nat)
    requires receives <= max
    ensures receives * gap + gap <= (max + 1) * gap
    ensures (receives + 1) * gap == receives * gap + gap
  {
    var d := max - receives;
    assert (max + 1) * gap == receives * gap + gap + d * gap;
  }

  lemma ReceiveIsTimely(c: Config, gap: nat, s: State, i: nat, handling: Handling)
    requires Timely(c, gap, s) && i < |s.queue|
    ensures Timely(c, gap, Received(s, i, c.maxReceiveCount, handling))
  {
    var m := s.queue[i];
    assert m in s.queue && TimelyMessage(c, gap, s.now, m);
    var again := m.(seenAt := s.now, receives := m.receives + 1);
    if m.receives < c.maxReceiveCount {
      AgeBound(m.receives, c.maxReceiveCount, gap);
      assert TimelyMessage(c, gap, s.now, again);
    }
    Remaining(s.queue, i, again);
  }

  lemma StepIsTimely(c: Config, gap: nat, s: State, step: Step)
    requires Timely(c, gap, s) && CanStep(c, s, step) && Prompt(c, gap, s, step)
    ensures Timely(c, gap, Next(c, s, step))
  {
    match step
    case Attempt(i, answer, deadLetters, dlqTakes) =>
      AttemptIsTimely(c, gap, s, i, c.queueAllows, answer, FailureFate(c, deadLetters, dlqTakes));
    case GiveUp(i, _) => Remaining(s.atRule, i, s.atRule[i]);
    case Receive(i, handling) => ReceiveIsTimely(c, gap, s, i, handling);
    case Expire(i) => Remaining(s.queue, i, s.queue[i]);
    case _ =>
  }

  lemma {:induction false} RunIsTimely(c: Config, gap: nat, states: seq<State>, steps: seq<Step>, k: nat)
    requires PromptRun(c, gap, states, steps) && k < |states|
    ensures Timely(c, gap, states[k])
    decreases k
  {
    if k > 0 {
      RunIsTimely(c, gap, states, steps, k - 1);
      StepIsTimely(c, gap, states[k - 1], steps[k - 1]);
    }
  }

  /** The retries, then every receive and the one that dead-letters, with the gaps between them. */
  function Longest(c: Config, gap: nat): nat {
    c.window + (c.maxReceiveCount + 1) * gap
  }

  /** Whatever has not ended was matched no longer than `bound` ago. */
  predicate Younger(s: State, bound: int) {
    && (forall p :: p in s.atRule ==> s.now <= p.matchedAt + bound)
    && (forall m :: m in s.queue ==> s.now <= m.matchedAt + bound)
  }

  /** It is so in every state of every prompt run. */
  ghost predicate EndsWithin(c: Config, gap: nat, bound: int) {
    forall states: seq<State>, steps: seq<Step>, k: nat ::
      PromptRun(c, gap, states, steps) && k < |states| ==> Younger(states[k], bound)
  }

  lemma TimelyEnds(c: Config, gap: nat, s: State)
    requires Timely(c, gap, s)
    ensures Younger(s, Longest(c, gap))
    ensures forall m :: m in s.queue ==> s.now <= m.enqueuedAt + (c.maxReceiveCount + 1) * gap
  {
    forall m | m in s.queue
      ensures s.now <= m.enqueuedAt + (c.maxReceiveCount + 1) * gap && s.now <= m.matchedAt + Longest(c, gap)
    {
      AgeBound(m.receives, c.maxReceiveCount, gap);
    }
  }

  /** The copies of an event matched no later than `time`. */
  predicate MatchedBy(s: State, id: nat, time: nat) {
    && (forall p :: p in s.atRule && p.id == id ==> p.matchedAt <= time)
    && (forall m :: m in s.queue && m.id == id ==> m.matchedAt <= time)
  }

  lemma AttemptKeepsMatchedBy(s: State, i: nat, allowed: bool, answer: Answer, failure: Fate, id: nat, time: nat)
    requires MatchedBy(s, id, time) && i < |s.atRule|
    ensures MatchedBy(Attempted(s, i, allowed, answer, failure), id, time)
  {
    var p := s.atRule[i];
    assert p in s.atRule;
    Remaining(s.atRule, i, p.(attempts := p.attempts + 1));
  }

  lemma ReceiveKeepsMatchedBy(s: State, i: nat, maxReceiveCount: nat, handling: Handling, id: nat, time: nat)
    requires MatchedBy(s, id, time) && i < |s.queue|
    ensures MatchedBy(Received(s, i, maxReceiveCount, handling), id, time)
  {
    var m := s.queue[i];
    assert m in s.queue;
    Remaining(s.queue, i, m.(seenAt := s.now, receives := m.receives + 1));
  }

  lemma StepKeepsMatchedBy(c: Config, s: State, step: Step, id: nat, time: nat)
    requires MatchedBy(s, id, time) && CanStep(c, s, step) && step != Match(id)
    ensures MatchedBy(Next(c, s, step), id, time)
  {
    match step
    case Attempt(i, answer, deadLetters, dlqTakes) =>
      AttemptKeepsMatchedBy(s, i, c.queueAllows, answer, FailureFate(c, deadLetters, dlqTakes), id, time);
    case GiveUp(i, _) => Remaining(s.atRule, i, s.atRule[i]);
    case Receive(i, handling) => ReceiveKeepsMatchedBy(s, i, c.maxReceiveCount, handling, id, time);
    case Expire(i) => Remaining(s.queue, i, s.queue[i]);
    case _ =>
  }

  lemma {:induction false} RunKeepsMatchedBy(
    c: Config, states: seq<State>, steps: seq<Step>, j: nat, k: nat, id: nat, time: nat)
    requires Run(c, states, steps) && j <= k < |states| && MatchedBy(states[j], id, time)
    requires forall n :: j <= n < k ==> steps[n] != Match(id)
    ensures MatchedBy(states[k], id, time)
    decreases k
  {
    if j < k {
      RunKeepsMatchedBy(c, states, steps, j, k - 1, id, time);
      StepKeepsMatchedBy(c, states[k - 1], steps[k - 1], id, time);
    }
  }

  /** Every event ends: once the longest way has passed since it was last matched, all of its copies
      are among the ended. */
  lemma EveryEventEnds(c: Config, gap: nat, states: seq<State>, steps: seq<Step>, j: nat, k: nat, id: nat)
    requires PromptRun(c, gap, states, steps) && j <= k < |states|
    requires forall n :: j <= n < k ==> steps[n] != Match(id)
    requires states[k].now > states[j].now + Longest(c, gap)
    ensures multiset(EndedIds(states[k].ended))[id] == states[k].matched[id] + states[k].doubled[id]
  {
    RunIsTimely(c, gap, states, steps, j);
    RunIsTimely(c, gap, states, steps, k);
    MatchedByNow(c, gap, states[j], id);
    RunKeepsMatchedBy(c, states, steps, j, k, id, states[j].now);
    TimelyEnds(c, gap, states[k]);
    EveryCopyIsSomewhere(c, states, steps, k);
    NoCopyLeft(states[k], id, states[j].now, Longest(c, gap));
  }

  lemma MatchedByNow(c: Config, gap: nat, s: State, id: nat)
    requires Timely(c, gap, s)
    ensures MatchedBy(s, id, s.now)
  {
    forall m | m in s.queue ensures m.matchedAt <= s.now {
      assert TimelyMessage(c, gap, s.now, m);
      assert m.enqueuedAt <= s.now;
    }
  }

  lemma NoCopyLeft(s: State, id: nat, time: nat, longest: nat)
    requires MatchedBy(s, id, time) && s.now > time + longest && Conserved(s) && Younger(s, longest)
    ensures multiset(EndedIds(s.ended))[id] == s.matched[id] + s.doubled[id]
  {
    forall i | 0 <= i < |s.atRule| ensures RuleIds(s.atRule)[i] != id {
      assert s.atRule[i] in s.atRule;
    }
    forall i | 0 <= i < |s.queue| ensures QueueIds(s.queue)[i] != id {
      assert s.queue[i] in s.queue;
    }
    NotIn(RuleIds(s.atRule), id);
    NotIn(QueueIds(s.queue), id);
    assert (s.matched + s.doubled)[id] == s.matched[id] + s.doubled[id];
  }

  lemma NotIn(ids: seq<nat>, id: nat)
    requires forall i :: 0 <= i < |ids| ==> ids[i] != id
    ensures multiset(ids)[id] == 0
  {
    assert id !in ids;
  }

  /** Time never has to stop for a prompt run: whatever has not ended can take its next step. */
  lemma NextStepIsPossible(c: Config, gap: nat, s: State, i: nat)
    requires Timely(c, gap, s)
    ensures i < |s.atRule| ==> CanStep(c, s, Attempt(i, Accepts, false, false)) || CanStep(c, s, GiveUp(i, false))
    ensures i < |s.queue| ==> CanStep(c, s, Receive(i, Handled))
  {
    if i < |s.atRule| {
      assert s.atRule[i] in s.atRule;
    }
  }

  // ---- The slowest event

  lemma Appended(c: Config, gap: nat, states: seq<State>, steps: seq<Step>, step: Step)
    requires PromptRun(c, gap, states, steps)
    requires var s := states[|steps|]; CanStep(c, s, step) && Prompt(c, gap, s, step)
    ensures PromptRun(c, gap, states + [Next(c, states[|steps|], step)], steps + [step])
  {
    var ss, ts := states + [Next(c, states[|steps|], step)], steps + [step];
    forall k | 0 <= k < |ts|
      ensures CanStep(c, ss[k], ts[k]) && ss[k + 1] == Next(c, ss[k], ts[k]) && Prompt(c, gap, ss[k], ts[k])
    {
      assert k < |steps| ==> ss[k] == states[k] && ss[k + 1] == states[k + 1] && ts[k] == steps[k];
    }
  }

  /** What the run below fixes of a state. */
  predicate IsSlow(s: State, now: nat, atRule: seq<Pending>, queue: seq<Message>) {
    s.now == now && s.atRule == atRule && s.queue == queue && s.ended == []
  }

  lemma BusyThenAccepted(s: State)
    requires IsSlow(s, 0, [Pending(0, 0, 0)], [])
    ensures IsSlow(Attempted(s, 0, true, Busy, NotDelivered), 0, [Pending(0, 0, 1)], [])
  {
  }

  lemma AcceptedLate(s: State, at: nat)
    requires IsSlow(s, at, [Pending(0, 0, 1)], [])
    ensures IsSlow(Attempted(s, 0, true, Accepts, NotDelivered), at, [], [Message(0, 0, at, at, 0)])
  {
  }

  lemma FailedLate(s: State, at: nat, m: Message, maxReceiveCount: nat)
    requires IsSlow(s, at, [], [m]) && m.receives < maxReceiveCount
    ensures IsSlow(Received(s, 0, maxReceiveCount, Failed), at, [], [m.(seenAt := at, receives := m.receives + 1)])
  {
  }

  /** One event that is sent at the very end of its window. */
  lemma SlowBegins(c: Config, gap: nat) returns (states: seq<State>, steps: seq<Step>)
    requires c.queueAllows && c.maxAttempts > 1
    ensures PromptRun(c, gap, states, steps)
    ensures IsSlow(states[|steps|], c.window, [], [Message(0, 0, c.window, c.window, 0)])
  {
    states, steps := [START], [];
    Appended(c, gap, states, steps, Match(0));
    var s1 := Next(c, START, Match(0));
    states, steps := states + [s1], steps + [Match(0)];
    assert IsSlow(s1, 0, [Pending(0, 0, 0)], []);
    BusyThenAccepted(s1);
    var busy := Attempt(0, Busy, false, false);
    Appended(c, gap, states, steps, busy);
    var s2 := Next(c, s1, busy);
    states, steps := states + [s2], steps + [busy];
    Appended(c, gap, states, steps, Tick(c.window));
    var s3 := Next(c, s2, Tick(c.window));
    states, steps := states + [s3], steps + [Tick(c.window)];
    AcceptedLate(s3, c.window);
    var send := Attempt(0, Accepts, false, false);
    Appended(c, gap, states, steps, send);
    states, steps := states + [Next(c, s3, send)], steps + [send];
  }

  /** Its message then fails on every receive, each as late as it may be. */
  lemma {:induction false} SlowEvent(c: Config, gap: nat, receives: nat) returns (states: seq<State>, steps: seq<Step>)
    requires c.queueAllows && c.maxAttempts > 1 && receives <= c.maxReceiveCount
    ensures PromptRun(c, gap, states, steps)
    ensures IsSlow(states[|steps|], c.window + (receives + 1) * gap, [],
                   [Message(0, 0, c.window, c.window + receives * gap, receives)])
  {
    var seen := c.window + receives * gap;
    if receives == 0 {
      states, steps := SlowBegins(c, gap);
    } else {
      states, steps := SlowEvent(c, gap, receives - 1);
      AgeBound(receives - 1, c.maxReceiveCount, gap);
      var last := states[|steps|];
      FailedLate(last, seen, last.queue[0], c.maxReceiveCount);
      Appended(c, gap, states, steps, Receive(0, Failed));
      states, steps := states + [Next(c, last, Receive(0, Failed))], steps + [Receive(0, Failed)];
    }
    AgeBound(receives, c.maxReceiveCount, gap);
    var s := states[|steps|];
    assert IsSlow(s, seen, [], [Message(0, 0, c.window, seen, receives)]);
    Appended(c, gap, states, steps, Tick(gap));
    states, steps := states + [Next(c, s, Tick(gap))], steps + [Tick(gap)];
  }

  /** The bound on the whole way is exact. */
  lemma EndsWithinExactly(c: Config, gap: nat, bound: int)
    requires c.queueAllows && c.maxAttempts > 1
    ensures EndsWithin(c, gap, bound) <==> bound >= Longest(c, gap)
  {
    if bound >= Longest(c, gap) {
      forall states: seq<State>, steps: seq<Step>, k: nat | PromptRun(c, gap, states, steps) && k < |states|
        ensures Younger(states[k], bound)
      {
        RunIsTimely(c, gap, states, steps, k);
        TimelyEnds(c, gap, states[k]);
      }
    } else {
      var states, steps := SlowEvent(c, gap, c.maxReceiveCount);
      var s := states[|steps|];
      assert s.queue[0] in s.queue && s.now > s.queue[0].matchedAt + bound;
      assert !Younger(s, bound);
    }
  }

  // ---- Expiry

  predicate NothingExpired(s: State) {
    forall e :: e in s.ended ==> e.fate != Expired
  }

  /** However long the run, no event expires from the queue unseen. */
  ghost predicate NeverExpires(c: Config, gap: nat) {
    forall states: seq<State>, steps: seq<Step>, k: nat ::
      PromptRun(c, gap, states, steps) && k < |states| ==> NothingExpired(states[k])
  }

  lemma NoneIsOldEnough(c: Config, gap: nat, s: State, i: nat)
    requires (c.maxReceiveCount + 1) * gap < c.retention && Timely(c, gap, s) && i < |s.queue|
    ensures s.now < s.queue[i].enqueuedAt + c.retention
  {
    TimelyEnds(c, gap, s);
    assert s.queue[i] in s.queue;
  }

  lemma EndExpiresNothing(s: State, id: nat, fate: Fate)
    requires NothingExpired(s) && fate != Expired
    ensures NothingExpired(Finish(s, id, fate))
  {
  }

  lemma ReceiveExpiresNothing(s: State, i: nat, maxReceiveCount: nat, handling: Handling)
    requires NothingExpired(s) && i < |s.queue|
    ensures NothingExpired(Received(s, i, maxReceiveCount, handling))
  {
  }

  lemma StepExpiresNothing(c: Config, gap: nat, s: State, step: Step)
    requires (c.maxReceiveCount + 1) * gap < c.retention
    requires Timely(c, gap, s) && NothingExpired(s) && CanStep(c, s, step)
    ensures NothingExpired(Next(c, s, step))
  {
    match step
    case Expire(i) => NoneIsOldEnough(c, gap, s, i);
    case Attempt(i, _, deadLetters, dlqTakes) =>
      EndExpiresNothing(s.(atRule := Without(s.atRule, i)), s.atRule[i].id, FailureFate(c, deadLetters, dlqTakes));
    case GiveUp(i, dlqTakes) =>
      EndExpiresNothing(s.(atRule := Without(s.atRule, i)), s.atRule[i].id, DeadLetterFate(c, dlqTakes));
    case Receive(i, handling) => ReceiveExpiresNothing(s, i, c.maxReceiveCount, handling);
    case _ =>
  }

  lemma {:induction false} RunExpiresNothing(c: Config, gap: nat, states: seq<State>, steps: seq<Step>, k: nat)
    requires (c.maxReceiveCount + 1) * gap < c.retention
    requires PromptRun(c, gap, states, steps) && k < |states|
    ensures NothingExpired(states[k])
    decreases k
  {
    if k > 0 {
      RunExpiresNothing(c, gap, states, steps, k - 1);
      RunIsTimely(c, gap, states, steps, k - 1);
      StepExpiresNothing(c, gap, states[k - 1], steps[k - 1]);
    }
  }

  lemma ExpiredLate(s: State, m: Message)
    requires s.queue == [m] && s.ended == []
    ensures !NothingExpired(Finish(s.(queue := Without(s.queue, 0)), m.id, Expired))
  {
    var end := Finish(s.(queue := Without(s.queue, 0)), m.id, Expired);
    assert end.ended[0] in end.ended;
  }

  /** Nothing expires unseen exactly when the receives a message has, and the one that dead-letters
      it, fit into the retention with the gaps between them. */
  lemma NeverExpiresIff(c: Config, gap: nat)
    requires c.queueAllows && c.maxAttempts > 1
    ensures NeverExpires(c, gap) <==> (c.maxReceiveCount + 1) * gap < c.retention
  {
    if (c.maxReceiveCount + 1) * gap < c.retention {
      forall states: seq<State>, steps: seq<Step>, k: nat | PromptRun(c, gap, states, steps) && k < |states|
        ensures NothingExpired(states[k])
      {
        RunExpiresNothing(c, gap, states, steps, k);
      }
    } else {
      var states, steps := SlowEvent(c, gap, c.maxReceiveCount);
      var s := states[|steps|];
      ExpiredLate(s, s.queue[0]);
      Appended(c, gap, states, steps, Expire(0));
      var longer := states + [Next(c, s, Expire(0))];
      assert !NothingExpired(longer[|steps| + 1]);
    }
  }
}
