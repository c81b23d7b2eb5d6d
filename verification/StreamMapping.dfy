/** A DynamoDB stream mapping over one shard: bounded retries, bisection, partial-batch failure and
    an on-failure queue.

    The function's answers are arbitrary, and so is what the mapping does where its contract leaves
    a choice: where it cuts a batch, and whether it cuts one reported failed at its first record. */
module StreamMapping {

  /** The function succeeded, threw, or reported its first failed record by position. */
  datatype Outcome = Success | Throws | FailsAt(index: nat)

  datatype Batch<R> = Batch(records: seq<R>, retries: nat)

  datatype Fate = Handled | OnFailureQueue

  datatype Ended<R> = Ended(record: R, fate: Fate)

  /** `pending` is the rest of the shard in order, the batch being worked on first. */
  datatype Shard<R> = Shard(pending: seq<Batch<R>>, ended: seq<Ended<R>>)

  datatype Step =
    | Invoke(outcome: Outcome, halve: bool, cut: nat)
    | Expire(count: nat)

  function EndAll<R>(records: seq<R>, fate: Fate): seq<Ended<R>> {
    seq(|records|, i requires 0 <= i < |records| => Ended(records[i], fate))
  }

  /** Whether the mapping bisects a batch after this outcome. A thrown error always does. */
  predicate Halves(size: nat, step: Step)
    requires step.Invoke?
  {
    size > 1 && (step.outcome.Throws? || step.halve) && 0 < step.cut < size
  }

  predicate CanStep<R>(s: Shard<R>, step: Step) {
    && s.pending != []
    && var size := |s.pending[0].records|;
       match step
       case Expire(count) => 0 < count <= size
       case Invoke(outcome, _, cut) =>
         outcome.Throws? && size > 1 ==> 0 < cut < size
  }

  /** The batch made no progress: bisect it, retry it, or give it up. */
  function Fail<R>(s: Shard<R>, maxRetries: nat, step: Step): Shard<R>
    requires s.pending != [] && step.Invoke?
  {
    var b, rest := s.pending[0], s.pending[1..];
    if Halves(|b.records|, step) then
      s.(pending := [Batch(b.records[..step.cut], maxRetries), Batch(b.records[step.cut..], maxRetries)] + rest)
    else if b.retries > 0 then
      s.(pending := [b.(retries := b.retries - 1)] + rest)
    else
      Shard(rest, s.ended + EndAll(b.records, OnFailureQueue))
  }

  /** The first `n` records of the batch end, the others stay. */
  function EndPrefix<R>(s: Shard<R>, n: nat, fate: Fate): Shard<R>
    requires s.pending != [] && n <= |s.pending[0].records|
  {
    var b, rest := s.pending[0], s.pending[1..];
    Shard(
      if n == |b.records| then rest else [b.(records := b.records[n..])] + rest,
      s.ended + EndAll(b.records[..n], fate))
  }

  function Next<R>(s: Shard<R>, maxRetries: nat, step: Step): Shard<R>
    requires CanStep(s, step)
  {
    match step
    case Expire(count) => EndPrefix(s, count, OnFailureQueue)
    case Invoke(outcome, _, _) =>
      match outcome
      case Success => EndPrefix(s, |s.pending[0].records|, Handled)
      case Throws => Fail(s, maxRetries, step)
      case FailsAt(i) =>
        // a position outside the batch names no record, which fails the whole batch
        if 0 < i < |s.pending[0].records| then EndPrefix(s, i, Handled) else Fail(s, maxRetries, step)
  }

  ghost predicate Run<R>(s0: Shard<R>, maxRetries: nat, steps: seq<Step>, s: Shard<R>)
    decreases |steps|
  {
    if steps == [] then s == s0
    else CanStep(s0, steps[0]) && Run(Next(s0, maxRetries, steps[0]), maxRetries, steps[1..], s)
  }

  // ---- Nothing is skipped, doubled or reordered

  function Pending<R>(batches: seq<Batch<R>>): seq<R> {
    if batches == [] then [] else batches[0].records + Pending(batches[1..])
  }

  function EndedRecords<R>(es: seq<Ended<R>>): (rs: seq<R>)
    ensures |rs| == |es|
  {
    seq(|es|, i requires 0 <= i < |es| => es[i].record)
  }

  /** Every record of the shard, ended or pending, in shard order. */
  function Records<R>(s: Shard<R>): seq<R> {
    EndedRecords(s.ended) + Pending(s.pending)
  }

  /** Every batch holds a record and has no more retries than the mapping grants. */
  ghost predicate WellFormed<R>(s: Shard<R>, maxRetries: nat) {
    forall b :: b in s.pending ==> b.records != [] && b.retries <= maxRetries
  }

  lemma EndPrefixKeepsRecords<R>(s: Shard<R>, n: nat, fate: Fate)
    requires s.pending != [] && n <= |s.pending[0].records|
    ensures Records(EndPrefix(s, n, fate)) == Records(s)
  {
    var b, rest := s.pending[0], s.pending[1..];
    assert b.records == b.records[..n] + b.records[n..];
    assert EndedRecords(s.ended + EndAll(b.records[..n], fate)) == EndedRecords(s.ended) + b.records[..n];
    if n < |b.records| {
      assert ([b.(records := b.records[n..])] + rest)[1..] == rest;
    }
  }

  lemma FailKeepsRecords<R>(s: Shard<R>, maxRetries: nat, step: Step)
    requires s.pending != [] && step.Invoke?
    ensures Records(Fail(s, maxRetries, step)) == Records(s)
  {
    var b, rest := s.pending[0], s.pending[1..];
    if Halves(|b.records|, step) {
      var left := Batch(b.records[..step.cut], maxRetries);
      var right := Batch(b.records[step.cut..], maxRetries);
      assert b.records == left.records + right.records;
      assert ([left, right] + rest)[1..] == [right] + rest && ([right] + rest)[1..] == rest;
      assert Pending([right] + rest) == right.records + Pending(rest);
      assert Pending([left, right] + rest) == left.records + (right.records + Pending(rest));
    } else if b.retries > 0 {
      assert ([b.(retries := b.retries - 1)] + rest)[1..] == rest;
    } else {
      assert EndedRecords(s.ended + EndAll(b.records, OnFailureQueue)) == EndedRecords(s.ended) + b.records;
    }
  }

  lemma StepKeepsRecords<R>(s: Shard<R>, maxRetries: nat, step: Step)
    requires CanStep(s, step) && WellFormed(s, maxRetries)
    ensures Records(Next(s, maxRetries, step)) == Records(s)
    ensures WellFormed(Next(s, maxRetries, step), maxRetries)
  {
    var n := |s.pending[0].records|;
    match step
    case Expire(count) => EndPrefixKeepsRecords(s, count, OnFailureQueue);
    case Invoke(outcome, _, _) =>
      EndPrefixKeepsRecords(s, n, Handled);
      FailKeepsRecords(s, maxRetries, step);
      if outcome.FailsAt? && outcome.index < n {
        EndPrefixKeepsRecords(s, outcome.index, Handled);
      }
  }

  lemma {:induction false} RunKeepsRecords<R>(s0: Shard<R>, maxRetries: nat, steps: seq<Step>, s: Shard<R>)
    requires WellFormed(s0, maxRetries) && Run(s0, maxRetries, steps, s)
    ensures Records(s) == Records(s0) && WellFormed(s, maxRetries)
    decreases |steps|
  {
    if steps != [] {
      StepKeepsRecords(s0, maxRetries, steps[0]);
      RunKeepsRecords(Next(s0, maxRetries, steps[0]), maxRetries, steps[1..], s);
    }
  }

  // ---- Termination

  /** How many more steps a batch of `size` records can cause at most. */
  function SizeWeight(size: nat, retries: nat, maxRetries: nat): nat
    requires size > 0
  {
    (2 * size - 2) * (maxRetries + 2) + retries + 1
  }

  ghost function Weight<R>(batches: seq<Batch<R>>, maxRetries: nat): nat
    requires forall b :: b in batches ==> b.records != []
  {
    if batches == [] then 0
    else SizeWeight(|batches[0].records|, batches[0].retries, maxRetries) + Weight(batches[1..], maxRetries)
  }

  lemma ShorterWeighsLess(size: nat, left: nat, retries: nat, maxRetries: nat)
    requires 0 < left < size && retries <= maxRetries
    ensures SizeWeight(left, retries, maxRetries) < SizeWeight(size, retries, maxRetries)
  {
    var d := size - left;
    assert (2 * size - 2) * (maxRetries + 2) == (2 * left - 2) * (maxRetries + 2) + 2 * d * (maxRetries + 2);
    assert d * (maxRetries + 2) > 0;
  }

  lemma HalvesWeighLess(left: nat, right: nat, retries: nat, maxRetries: nat)
    requires 0 < left && 0 < right && retries <= maxRetries
    ensures SizeWeight(left, maxRetries, maxRetries) + SizeWeight(right, maxRetries, maxRetries)
          < SizeWeight(left + right, retries, maxRetries)
  {
    assert (2 * (left + right) - 2) * (maxRetries + 2)
        == (2 * left - 2) * (maxRetries + 2) + (2 * right - 2) * (maxRetries + 2) + 2 * (maxRetries + 2);
  }

  lemma WeightHead<R>(b: Batch<R>, rest: seq<Batch<R>>, maxRetries: nat)
    requires b.records != [] && forall x :: x in rest ==> x.records != []
    ensures Weight([b] + rest, maxRetries)
         == SizeWeight(|b.records|, b.retries, maxRetries) + Weight(rest, maxRetries)
  {
    assert ([b] + rest)[1..] == rest;
  }

  lemma SizeWeighs(size: nat, retries: nat, maxRetries: nat)
    requires size > 0
    ensures SizeWeight(size, retries, maxRetries) > 0
    ensures retries > 0 ==> SizeWeight(size, retries - 1, maxRetries) < SizeWeight(size, retries, maxRetries)
  {
  }

  lemma GivingUpLowersWeight<R>(b: Batch<R>, rest: seq<Batch<R>>, maxRetries: nat)
    requires b.records != [] && forall x :: x in rest ==> x.records != []
    ensures Weight(rest, maxRetries) < Weight([b] + rest, maxRetries)
    ensures b.retries > 0 ==>
      Weight([b.(retries := b.retries - 1)] + rest, maxRetries) < Weight([b] + rest, maxRetries)
  {
    WeightHead(b, rest, maxRetries);
    SizeWeighs(|b.records|, b.retries, maxRetries);
    if b.retries > 0 {
      WeightHead(b.(retries := b.retries - 1), rest, maxRetries);
    }
  }

  lemma PrefixLowersWeight<R>(b: Batch<R>, rest: seq<Batch<R>>, n: nat, maxRetries: nat)
    requires 0 < n < |b.records| && b.retries <= maxRetries && forall x :: x in rest ==> x.records != []
    ensures Weight([b.(records := b.records[n..])] + rest, maxRetries) < Weight([b] + rest, maxRetries)
  {
    WeightHead(b, rest, maxRetries);
    WeightHead(b.(records := b.records[n..]), rest, maxRetries);
    ShorterWeighsLess(|b.records|, |b.records| - n, b.retries, maxRetries);
  }

  lemma EndPrefixLowersWeight<R>(s: Shard<R>, maxRetries: nat, n: nat, fate: Fate)
    requires s.pending != [] && WellFormed(s, maxRetries) && 0 < n <= |s.pending[0].records|
    ensures WellFormed(EndPrefix(s, n, fate), maxRetries)
    ensures Weight(EndPrefix(s, n, fate).pending, maxRetries) < Weight(s.pending, maxRetries)
  {
    var b, rest := s.pending[0], s.pending[1..];
    assert b in s.pending && forall x :: x in rest ==> x in s.pending;
    assert s.pending == [b] + rest;
    if n < |b.records| {
      PrefixLowersWeight(b, rest, n, maxRetries);
    } else {
      GivingUpLowersWeight(b, rest, maxRetries);
    }
  }

  lemma HalvingLowersWeight<R>(b: Batch<R>, rest: seq<Batch<R>>, cut: nat, maxRetries: nat)
    requires 0 < cut < |b.records| && b.retries <= maxRetries
    requires forall x :: x in rest ==> x.records != []
    ensures Weight([Batch(b.records[..cut], maxRetries), Batch(b.records[cut..], maxRetries)] + rest, maxRetries)
          < Weight([b] + rest, maxRetries)
  {
    var left, right := Batch(b.records[..cut], maxRetries), Batch(b.records[cut..], maxRetries);
    WeightHead(b, rest, maxRetries);
    WeightHead(right, rest, maxRetries);
    WeightHead(left, [right] + rest, maxRetries);
    assert [left, right] + rest == [left] + ([right] + rest);
    HalvesWeighLess(cut, |b.records| - cut, b.retries, maxRetries);
  }

  lemma FailKeepsWellFormed<R>(s: Shard<R>, maxRetries: nat, step: Step)
    requires s.pending != [] && WellFormed(s, maxRetries) && step.Invoke?
    ensures WellFormed(Fail(s, maxRetries, step), maxRetries)
  {
  }

  lemma FailLowersWeight<R>(s: Shard<R>, maxRetries: nat, step: Step)
    requires s.pending != [] && WellFormed(s, maxRetries) && step.Invoke?
    ensures WellFormed(Fail(s, maxRetries, step), maxRetries)
    ensures Weight(Fail(s, maxRetries, step).pending, maxRetries) < Weight(s.pending, maxRetries)
  {
    FailKeepsWellFormed(s, maxRetries, step);
    var b, rest := s.pending[0], s.pending[1..];
    assert b in s.pending && forall x :: x in rest ==> x in s.pending;
    assert s.pending == [b] + rest;
    if Halves(|b.records|, step) {
      HalvingLowersWeight(b, rest, step.cut, maxRetries);
    } else {
      GivingUpLowersWeight(b, rest, maxRetries);
    }
  }

  lemma StepLowersWeight<R>(s: Shard<R>, maxRetries: nat, step: Step)
    requires CanStep(s, step) && WellFormed(s, maxRetries)
    ensures WellFormed(Next(s, maxRetries, step), maxRetries)
    ensures Weight(Next(s, maxRetries, step).pending, maxRetries) < Weight(s.pending, maxRetries)
  {
    var n := |s.pending[0].records|;
    assert s.pending[0] in s.pending;
    match step
    case Expire(count) => EndPrefixLowersWeight(s, maxRetries, count, OnFailureQueue);
    case Invoke(outcome, _, _) =>
      EndPrefixLowersWeight(s, maxRetries, n, Handled);
      FailLowersWeight(s, maxRetries, step);
      if outcome.FailsAt? && 0 < outcome.index < n {
        EndPrefixLowersWeight(s, maxRetries, outcome.index, Handled);
      }
  }

  lemma {:induction false} RunIsBounded<R>(s0: Shard<R>, maxRetries: nat, steps: seq<Step>, s: Shard<R>)
    requires WellFormed(s0, maxRetries) && Run(s0, maxRetries, steps, s)
    ensures WellFormed(s, maxRetries)
    ensures |steps| + Weight(s.pending, maxRetries) <= Weight(s0.pending, maxRetries)
    decreases |steps|
  {
    if steps != [] {
      StepLowersWeight(s0, maxRetries, steps[0]);
      RunIsBounded(Next(s0, maxRetries, steps[0]), maxRetries, steps[1..], s);
    }
  }

  function Fresh<R>(records: seq<R>, maxRetries: nat): Shard<R> {
    Shard([Batch(records, maxRetries)], [])
  }

  /** A shard of any batches, whatever the function answers: the mapping is done with it after a
      bounded number of steps, and by then every record has ended, handled or on the on-failure
      queue, in shard order, none skipped and none twice. Until then a step is possible. */
  lemma EveryRecordEnds<R>(s0: Shard<R>, maxRetries: nat, steps: seq<Step>, s: Shard<R>)
    requires WellFormed(s0, maxRetries) && s0.ended == [] && Run(s0, maxRetries, steps, s)
    ensures |steps| <= Weight(s0.pending, maxRetries)
    ensures EndedRecords(s.ended) <= Pending(s0.pending)
    ensures s.pending == [] ==> EndedRecords(s.ended) == Pending(s0.pending)
    ensures s.pending != [] ==> CanStep(s, Invoke(Success, false, 0))
  {
    var all := Pending(s0.pending);
    assert Records(s0) == all;
    RunIsBounded(s0, maxRetries, steps, s);
    RunKeepsRecords(s0, maxRetries, steps, s);
    var done, left := EndedRecords(s.ended), Pending(s.pending);
    assert done + left == all;
    assert s.pending == [] ==> done + [] == done;
  }

  // ---- Poison records

  /** The function's answer to a batch: it fails exactly when a poison record is in it. One that
      reports names the first poison record, one that does not report throws. */
  function Answer<R(==)>(records: seq<R>, poison: set<R>, reports: bool): Outcome {
    if forall r :: r in records ==> r !in poison then Success
    else if reports then FailsAt(FirstPoison(records, poison))
    else Throws
  }

  function FirstPoison<R(==)>(records: seq<R>, poison: set<R>): (i: nat)
    ensures i <= |records|
    ensures forall j :: 0 <= j < i ==> records[j] !in poison
    ensures i < |records| ==> records[i] in poison
  {
    if records == [] || records[0] in poison then 0 else FirstPoison(records[1..], poison) + 1
  }

  /** How the mapping answers a batch reported failed at its first record: by bisecting it, or by
      retrying it whole. A batch whose function threw is bisected either way. */
  datatype Service = Service(poison: set<nat>, reports: bool, bisectsReported: bool)

  ghost predicate Answered(s: Shard<nat>, service: Service, step: Step) {
    && s.pending != [] && step.Invoke?
    && var records := s.pending[0].records;
       && step.outcome == Answer(records, service.poison, service.reports)
       && step.halve == service.bisectsReported
       && (|records| > 1 ==> 0 < step.cut < |records|)
  }

  ghost predicate AnsweredRun(s0: Shard<nat>, service: Service, maxRetries: nat, steps: seq<Step>, s: Shard<nat>)
    decreases |steps|
  {
    if steps == [] then s == s0
    else
      && Answered(s0, service, steps[0])
      && AnsweredRun(Next(s0, maxRetries, steps[0]), service, maxRetries, steps[1..], s)
  }

  ghost predicate OnlyPoisonFails(ended: seq<Ended<nat>>, poison: set<nat>) {
    forall e :: e in ended ==> (e.fate == OnFailureQueue <==> e.record in poison)
  }

  lemma EndAllPoison(records: seq<nat>, fate: Fate, poison: set<nat>)
    requires forall r :: r in records ==> (fate == OnFailureQueue <==> r in poison)
    ensures OnlyPoisonFails(EndAll(records, fate), poison)
  {
  }

  lemma BisectingStepFailsOnlyPoison(s: Shard<nat>, service: Service, maxRetries: nat, step: Step)
    requires WellFormed(s, maxRetries) && Answered(s, service, step)
    requires !service.reports || service.bisectsReported
    requires OnlyPoisonFails(s.ended, service.poison)
    ensures OnlyPoisonFails(Next(s, maxRetries, step).ended, service.poison)
  {
    var records := s.pending[0].records;
    var healthy := forall r :: r in records ==> r !in service.poison;
    var first := FirstPoison(records, service.poison);
    if healthy {
      EndAllPoison(records, Handled, service.poison);
    } else if service.reports && 0 < first < |records| {
      EndAllPoison(records[..first], Handled, service.poison);
    } else if |records| == 1 {
      EndAllPoison(records, OnFailureQueue, service.poison);
    }
  }

  lemma {:induction false} BisectingFailsOnlyPoison(
    s0: Shard<nat>, service: Service, maxRetries: nat, steps: seq<Step>, s: Shard<nat>)
    requires WellFormed(s0, maxRetries) && AnsweredRun(s0, service, maxRetries, steps, s)
    requires !service.reports || service.bisectsReported
    requires OnlyPoisonFails(s0.ended, service.poison)
    ensures OnlyPoisonFails(s.ended, service.poison)
    decreases |steps|
  {
    if steps != [] {
      BisectingStepFailsOnlyPoison(s0, service, maxRetries, steps[0]);
      StepKeepsRecords(s0, maxRetries, steps[0]);
      BisectingFailsOnlyPoison(Next(s0, maxRetries, steps[0]), service, maxRetries, steps[1..], s);
    }
  }

  /** Reported and retried whole: what was before the first poison record is handled, and the
      batch from there on ends on the on-failure queue together. */
  lemma {:induction false} RetriedWhole(
    s0: Shard<nat>, service: Service, maxRetries: nat, steps: seq<Step>, s: Shard<nat>)
    requires service.reports && !service.bisectsReported
    requires |s0.pending| == 1 && s0.pending[0].records != []
    requires AnsweredRun(s0, service, maxRetries, steps, s) && s.pending == []
    ensures var records := s0.pending[0].records;
      var first := FirstPoison(records, service.poison);
      s.ended == s0.ended + EndAll(records[..first], Handled) + EndAll(records[first..], OnFailureQueue)
    decreases |steps|
  {
    var records := s0.pending[0].records;
    var first := FirstPoison(records, service.poison);
    assert steps != [];
    var next := Next(s0, maxRetries, steps[0]);
    if first == |records| {
      assert records[..first] == records;
      assert next.pending == [];
      NoMoreSteps(next, service, maxRetries, steps[1..], s);
    } else {
      assert records[first] in records;
      if first > 0 {
        var left := records[first..];
        FirstPoisonAfter(records, service.poison);
        RetriedWhole(next, service, maxRetries, steps[1..], s);
        assert left[..0] == [] && left[0..] == left;
      } else if s0.pending[0].retries > 0 {
        RetriedWhole(next, service, maxRetries, steps[1..], s);
      } else {
        NoMoreSteps(next, service, maxRetries, steps[1..], s);
        assert records[0..] == records;
      }
    }
  }

  lemma FirstPoisonAfter(records: seq<nat>, poison: set<nat>)
    requires FirstPoison(records, poison) < |records|
    ensures FirstPoison(records[FirstPoison(records, poison)..], poison) == 0
  {
  }

  lemma NoMoreSteps(s0: Shard<nat>, service: Service, maxRetries: nat, steps: seq<Step>, s: Shard<nat>)
    requires s0.pending == [] && AnsweredRun(s0, service, maxRetries, steps, s)
    ensures s == s0
  {
  }

  /** When the mapping is done with a batch, the records on the on-failure queue are exactly the
      poison ones if the function throws or the mapping bisects what it reports; otherwise only if
      no healthy record stood behind the batch's first poison one. */
  lemma PoisonIsolationIsExact(
    records: seq<nat>, service: Service, maxRetries: nat, steps: seq<Step>, s: Shard<nat>)
    requires records != []
    requires AnsweredRun(Fresh(records, maxRetries), service, maxRetries, steps, s) && s.pending == []
    ensures OnlyPoisonFails(s.ended, service.poison) <==>
      || !service.reports
      || service.bisectsReported
      || forall r :: r in records[FirstPoison(records, service.poison)..] ==> r in service.poison
  {
    var s0 := Fresh(records, maxRetries);
    if !service.reports || service.bisectsReported {
      BisectingFailsOnlyPoison(s0, service, maxRetries, steps, s);
    } else {
      RetriedWhole(s0, service, maxRetries, steps, s);
      var first := FirstPoison(records, service.poison);
      var handled, failed := EndAll(records[..first], Handled), EndAll(records[first..], OnFailureQueue);
      assert s.ended == handled + failed;
      forall r | r in records[first..] ensures Ended(r, OnFailureQueue) in s.ended {
        var i :| 0 <= i < |records[first..]| && records[first..][i] == r;
        assert failed[i] == Ended(r, OnFailureQueue);
      }
      EndAllPoison(records[..first], Handled, service.poison);
    }
  }
}
