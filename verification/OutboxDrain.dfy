/** The outbox drain: it publishes the OUTBOX_ENTRY rows of a stream batch to the bus, sets `sentAt`
    on the ones the bus took, and reports the first one it refused. */
module OutboxDrain {
  import opened MemberStatus
  import opened StreamMapping

  const PUT_EVENTS_BATCH_SIZE: nat := 10
  const MAX_RETRY_ATTEMPTS: nat := 5

  /** One inserted outbox row. `complete` says that it carries every field of the envelope. */
  datatype Row = Row(sequenceNumber: nat, complete: bool, eventType: string)

  /** The bridge publishes only the types on its list; the platform publisher has no list. */
  predicate Publishable(row: Row, allowed: Option<set<string>>) {
    row.complete && (allowed.Some? ==> row.eventType in allowed.value)
  }

  /** What became of the `sentAt` update of a published row: the handler counts the last two as failed,
      though the last one took effect. */
  datatype Mark = Marked | Unmarked | MarkedUnanswered

  /** The bus's answer for one entry. */
  datatype Entry = Taken(mark: Mark) | Refused

  /** The bus's answer for one request: an answer for each entry, or none at all. The client sends a
      request that got no answer again: `extra` is what earlier copies of an answered request delivered,
      `arrived` what all copies of an unanswered one did. */
  datatype Response = Entries(entries: seq<Entry>, extra: multiset<Row>) | Unavailable(arrived: multiset<Row>)

  /** What one invocation did: `taken` are the rows the bus answered it took, `marked` those of them that
      then carry `sentAt`, `failedMarks` those whose update failed. */
  datatype Effects = Effects(
    taken: seq<Row>,
    extra: multiset<Row>,
    arrived: multiset<Row>,
    marked: seq<Row>,
    failedMarks: seq<Row>,
    failed: Option<Row>)

  const NOTHING := Effects([], multiset{}, multiset{}, [], [], None)

  function Min(a: nat, b: nat): nat {
    if a < b then a else b
  }

  function Filtered(rows: seq<Row>, allowed: Option<set<string>>): seq<Row> {
    if rows == [] then []
    else if Publishable(rows[0], allowed) then [rows[0]] + Filtered(rows[1..], allowed)
    else Filtered(rows[1..], allowed)
  }

  /** The entries of one request, in order. */
  function Settle(rows: seq<Row>, entries: seq<Entry>): Effects
    requires |rows| == |entries|
  {
    if rows == [] then NOTHING
    else
      var rest := Settle(rows[1..], entries[1..]);
      match entries[0]
      case Taken(mark) =>
        rest.(taken := [rows[0]] + rest.taken,
              marked := if mark.Unmarked? then rest.marked else [rows[0]] + rest.marked,
              failedMarks := if mark.Marked? then rest.failedMarks else [rows[0]] + rest.failedMarks)
      case Refused => rest.(failed := Some(rows[0]))
  }

  predicate Among(bag: multiset<Row>, rows: seq<Row>) {
    forall r :: r in bag ==> r in rows
  }

  /** The bus answers each entry of the request it was sent, and gets nothing else. */
  predicate Fits(rows: seq<Row>, response: Response) {
    match response
    case Entries(entries, extra) => |entries| == |rows| && Among(extra, rows)
    case Unavailable(arrived) => Among(arrived, rows)
  }

  function Put(rows: seq<Row>, response: Response): Effects
    requires rows != [] && Fits(rows, response)
  {
    match response
    case Entries(entries, extra) => Settle(rows, entries).(extra := extra)
    case Unavailable(arrived) => NOTHING.(arrived := arrived, failed := Some(rows[0]))
  }

  function Chunk(rows: seq<Row>): seq<Row> {
    rows[..Min(PUT_EVENTS_BATCH_SIZE, |rows|)]
  }

  function AfterChunk(rows: seq<Row>): (rest: seq<Row>)
    ensures rows != [] ==> |rest| < |rows|
  {
    rows[Min(PUT_EVENTS_BATCH_SIZE, |rows|)..]
  }

  predicate Answered(rows: seq<Row>, responses: seq<Response>)
    decreases |rows|
  {
    rows == [] || (responses != [] && Fits(Chunk(rows), responses[0]) && Answered(AfterChunk(rows), responses[1..]))
  }

  function Then(first: Effects, second: Effects): Effects {
    Effects(first.taken + second.taken, first.extra + second.extra, first.arrived + second.arrived,
            first.marked + second.marked, first.failedMarks + second.failedMarks, second.failed)
  }

  /** The requests of one invocation, in order, up to the first that leaves a row unpublished. */
  function DrainOf(rows: seq<Row>, responses: seq<Response>): Effects
    requires Answered(rows, responses)
    decreases |rows|
  {
    if rows == [] then NOTHING
    else
      var put := Put(Chunk(rows), responses[0]);
      if put.failed.Some? then put else Then(put, DrainOf(AfterChunk(rows), responses[1..]))
  }

  // ---- The handler

  /** Each complete row of an allowed type as often as before, and no other row. */
  ghost predicate OnlyAllowed(records: seq<Row>, allowed: Option<set<string>>, rows: seq<Row>) {
    forall r :: (
      multiset(rows)[r] ==
        if r.complete && (allowed == None || r.eventType in allowed.value) then multiset(records)[r] else 0)
  }

  lemma {:induction false} FilteredCounts(records: seq<Row>, allowed: Option<set<string>>)
    ensures OnlyAllowed(records, allowed, Filtered(records, allowed))
  {
    if records != [] {
      FilteredCounts(records[1..], allowed);
      assert records == [records[0]] + records[1..];
    }
  }

  method ParseRows(records: seq<Row>, allowed: Option<set<string>>) returns (rows: seq<Row>)
    ensures rows == Filtered(records, allowed)
    ensures OnlyAllowed(records, allowed, rows)
  {
    rows := [];
    for i := 0 to |records|
      invariant rows + Filtered(records[i..], allowed) == Filtered(records, allowed)
    {
      if Publishable(records[i], allowed) {
        rows := rows + [records[i]];
      }
    }
    assert records[|records|..] == [] && rows == Filtered(records, allowed);
    FilteredCounts(records, allowed);
  }

  lemma {:induction false} SettleIsAnswered(rows: seq<Row>, entries: seq<Entry>)
    requires |rows| == |entries|
    ensures Settle(rows, entries).extra == multiset{} && Settle(rows, entries).arrived == multiset{}
  {
    if rows != [] {
      SettleIsAnswered(rows[1..], entries[1..]);
    }
  }

  method PublishChunk(rows: seq<Row>, response: Response) returns (e: Effects)
    requires rows != [] && Fits(rows, response)
    ensures e == Put(rows, response)
  {
    match response
    case Unavailable(arrived) => return NOTHING.(arrived := arrived, failed := Some(rows[0]));
    case Entries(entries, extra) =>
      var taken, marked, failedMarks := [], [], [];
      var failed: Option<Row> := None;
      for i := 0 to |rows|
        invariant rows[0..] == rows && entries[0..] == entries
        invariant var rest := Settle(rows[i..], entries[i..]); var all := Settle(rows, entries);
          && taken + rest.taken == all.taken
          && marked + rest.marked == all.marked
          && failedMarks + rest.failedMarks == all.failedMarks
          && (if failed.Some? then failed else rest.failed) == all.failed
      {
        assert rows[i..][0] == rows[i] && rows[i..][1..] == rows[i + 1..];
        assert entries[i..][0] == entries[i] && entries[i..][1..] == entries[i + 1..];
        match entries[i]
        case Refused => if failed.None? { failed := Some(rows[i]); }
        case Taken(mark) =>
          taken := taken + [rows[i]];
          if !mark.Unmarked? { marked := marked + [rows[i]]; }
          if !mark.Marked? { failedMarks := failedMarks + [rows[i]]; }
      }
      SettleIsAnswered(rows, entries);
      assert rows[|rows|..] == [] && entries[|rows|..] == [];
      return Effects(taken, extra, multiset{}, marked, failedMarks, failed);
  }

  lemma ThenThen(a: Effects, b: Effects, c: Effects)
    ensures Then(Then(a, b), c) == Then(a, Then(b, c))
    ensures Then(NOTHING, c) == c
  {
  }

  lemma DrainNext(rows: seq<Row>, responses: seq<Response>, i: nat)
    requires rows != [] && i <= |responses| && Answered(rows, responses[i..])
    ensures i < |responses| && Fits(Chunk(rows), responses[i]) && Answered(AfterChunk(rows), responses[i + 1..])
    ensures var put := Put(Chunk(rows), responses[i]);
      DrainOf(rows, responses[i..])
        == if put.failed.Some? then put else Then(put, DrainOf(AfterChunk(rows), responses[i + 1..]))
  {
    assert responses[i..][0] == responses[i] && responses[i..][1..] == responses[i + 1..];
  }

  /** One invocation of the drain on a stream batch. */
  method Drain(records: seq<Row>, allowed: Option<set<string>>, responses: seq<Response>) returns (e: Effects)
    requires Answered(Filtered(records, allowed), responses)
    ensures e == DrainOf(Filtered(records, allowed), responses)
  {
    var rows := ParseRows(records, allowed);
    var done := NOTHING;
    var i := 0;
    ghost var all := DrainOf(rows, responses);
    assert responses[0..] == responses;
    ThenThen(NOTHING, NOTHING, all);
    while rows != []
      invariant i <= |responses|
      invariant Answered(rows, responses[i..])
      invariant all == Then(done, DrainOf(rows, responses[i..]))
      decreases |rows|
    {
      DrainNext(rows, responses, i);
      var put := PublishChunk(Chunk(rows), responses[i]);
      if put.failed.Some? {
        return Then(done, put);
      }
      ThenThen(done, put, DrainOf(AfterChunk(rows), responses[i + 1..]));
      done := Then(done, put);
      rows, i := AfterChunk(rows), i + 1;
    }
    return Then(done, NOTHING);
  }

  // ---- What one invocation promises

  /** The first `k` rows were taken, the next one is reported if there is one, nothing reached the bus
      that was not asked, and no row was marked, well or not, that was not taken. */
  ghost predicate Confirms(rows: seq<Row>, e: Effects, k: nat) {
    && k <= |rows|
    && e.failed == (if k < |rows| then Some(rows[k]) else None)
    && multiset(rows[..k]) <= multiset(e.taken) <= multiset(rows)
    && Among(e.extra, rows) && Among(e.arrived, rows)
    && multiset(e.marked) <= multiset(e.taken) && multiset(e.failedMarks) <= multiset(e.taken)
  }

  lemma {:induction false} SettleConfirms(rows: seq<Row>, entries: seq<Entry>) returns (k: nat)
    requires |rows| == |entries|
    ensures Confirms(rows, Settle(rows, entries), k)
  {
    if rows == [] {
      k := 0;
    } else {
      var later := SettleConfirms(rows[1..], entries[1..]);
      assert rows == [rows[0]] + rows[1..];
      match entries[0]
      case Taken(_) =>
        k := later + 1;
        assert rows[..k] == [rows[0]] + rows[1..][..later];
      case Refused =>
        k := 0;
        assert rows[..0] == [];
    }
  }

  lemma PutConfirms(rows: seq<Row>, response: Response) returns (k: nat)
    requires rows != [] && Fits(rows, response)
    ensures Confirms(rows, Put(rows, response), k)
  {
    match response
    case Unavailable(arrived) => k := 0;
    case Entries(entries, _) => k := SettleConfirms(rows, entries);
  }

  lemma PrefixConfirms(all: seq<Row>, rows: seq<Row>, rest: seq<Row>, e: Effects, k: nat)
    requires all == rows + rest && Confirms(rows, e, k) && k < |rows|
    ensures Confirms(all, e, k)
  {
    assert all[..k] == rows[..k];
  }

  lemma ThenConfirms(all: seq<Row>, rows: seq<Row>, rest: seq<Row>, first: Effects, second: Effects, k: nat)
    requires all == rows + rest && Confirms(rows, first, |rows|) && Confirms(rest, second, k)
    ensures Confirms(all, Then(first, second), |rows| + k)
  {
    assert rows[..|rows|] == rows;
    assert all[..|rows| + k] == rows + rest[..k];
  }

  lemma ChunkSplits(rows: seq<Row>)
    requires rows != []
    ensures Chunk(rows) != [] && rows == Chunk(rows) + AfterChunk(rows)
  {
  }

  lemma AnsweredUnfolds(rows: seq<Row>, responses: seq<Response>)
    requires rows != [] && Answered(rows, responses)
    ensures responses != [] && Fits(Chunk(rows), responses[0]) && Answered(AfterChunk(rows), responses[1..])
  {
  }

  /** The invocation reports the first row the bus did not answer it took; every row before that one was
      published, and a row is marked only if it was published. */
  lemma {:induction false} DrainConfirms(rows: seq<Row>, responses: seq<Response>) returns (k: nat)
    requires Answered(rows, responses)
    ensures Confirms(rows, DrainOf(rows, responses), k)
    decreases |rows|
  {
    if rows == [] {
      k := 0;
      return;
    }
    ChunkSplits(rows);
    AnsweredUnfolds(rows, responses);
    var chunk, rest, first := Chunk(rows), AfterChunk(rows), Put(Chunk(rows), responses[0]);
    k := PutConfirms(chunk, responses[0]);
    if k < |chunk| {
      PrefixConfirms(rows, chunk, rest, first, k);
    } else {
      var later := DrainConfirms(rest, responses[1..]);
      ThenConfirms(rows, chunk, rest, first, DrainOf(rest, responses[1..]), later);
      k := k + later;
    }
  }

  // ---- The outbox over whole runs

  /** The publications of rows the mapping did not get past, by cause: by an invocation that died or
      whose answer the mapping never got; by a request that got no answer; by an earlier copy of a
      request the client sent again; and by one that was answered, while the mapping stopped at or before
      the row. */
  datatype Unpassed = Unpassed(
    crashed: multiset<Row>, unanswered: multiset<Row>, repeated: multiset<Row>, behind: multiset<Row>)

  const NO_ROWS := Unpassed(multiset{}, multiset{}, multiset{}, multiset{})

  function Sum(u: Unpassed): multiset<Row> {
    u.crashed + u.unanswered + (u.repeated + u.behind)
  }

  /** `published` counts the times an event reached the bus; `sent` holds the rows carrying `sentAt`;
      `flagged` those counted as malformed or rejected. The last two are histories; `failedMarks` counts
      the `sentAt` updates that failed. */
  datatype Outbox = Outbox(
    shard: Shard<Row>,
    published: multiset<Row>,
    sent: set<Row>,
    flagged: set<Row>,
    unpassed: Unpassed,
    failedMarks: multiset<Row>)

  /** `Crash` is an invocation that dies, or whose answer the mapping never gets. */
  datatype Step =
    | Attempt(responses: seq<Response>, halve: bool, cut: nat)
    | Crash(published: multiset<Row>, marked: seq<Row>, failedMarks: seq<Row>, cut: nat)
    | Expire(count: nat)

  function IndexOf(records: seq<Row>, row: Row): (i: nat)
    ensures i <= |records|
    ensures row !in records[..i]
    ensures row in records ==> i < |records| && records[i] == row
  {
    if records == [] || records[0] == row then 0 else IndexOf(records[1..], row) + 1
  }

  function OutcomeOf(records: seq<Row>, e: Effects): Outcome {
    if e.failed.None? then Success else FailsAt(IndexOf(records, e.failed.value))
  }

  /** How many records of the batch the mapping gets past. */
  function Passed(records: seq<Row>, outcome: Outcome): nat {
    match outcome
    case Success => |records|
    case Throws => 0
    case FailsAt(i) => if i < |records| then i else 0
  }

  function EffectsOf(records: seq<Row>, allowed: Option<set<string>>, step: Step): Effects
    requires step.Attempt? ==> Answered(Filtered(records, allowed), step.responses)
  {
    match step
    case Attempt(responses, _, _) => DrainOf(Filtered(records, allowed), responses)
    case Crash(_, marked, failedMarks, _) => NOTHING.(marked := marked, failedMarks := failedMarks)
    case Expire(_) => NOTHING
  }

  function MappingStep(records: seq<Row>, e: Effects, step: Step): StreamMapping.Step {
    match step
    case Attempt(_, halve, cut) => Invoke(OutcomeOf(records, e), halve, cut)
    case Crash(_, _, _, cut) => Invoke(Throws, false, cut)
    case Expire(count) => StreamMapping.Expire(count)
  }

  predicate CanStep(o: Outbox, allowed: Option<set<string>>, step: Step) {
    && o.shard.pending != []
    && var records := o.shard.pending[0].records;
       var rows := Filtered(records, allowed);
       && (step.Attempt? ==> Answered(rows, step.responses))
       && (step.Crash? ==>
             && Among(step.published, rows)
             && multiset(step.marked) <= step.published && multiset(step.failedMarks) <= step.published)
       && StreamMapping.CanStep(o.shard, MappingStep(records, EffectsOf(records, allowed, step), step))
  }

  function Unpublishable(records: seq<Row>, allowed: Option<set<string>>): set<Row> {
    set r | r in records && !Publishable(r, allowed)
  }

  function Next(o: Outbox, allowed: Option<set<string>>, step: Step): Outbox
    requires CanStep(o, allowed, step)
  {
    var records := o.shard.pending[0].records;
    var e := EffectsOf(records, allowed, step);
    var mapping := MappingStep(records, e, step);
    var passed := if step.Attempt? then Passed(records, mapping.outcome) else 0;
    var crashed := if step.Crash? then step.published else multiset{};
    var taken := multiset(e.taken);
    var u := o.unpassed;
    Outbox(
      StreamMapping.Next(o.shard, MAX_RETRY_ATTEMPTS, mapping),
      o.published + (crashed + e.arrived + (e.extra + taken)),
      o.sent + (set r | r in e.marked),
      if step.Expire? then o.flagged else o.flagged + Unpublishable(records, allowed),
      Unpassed(
        u.crashed + crashed, u.unanswered + e.arrived, u.repeated + e.extra,
        u.behind + (taken - multiset(Filtered(records[..passed], allowed)))),
      o.failedMarks + multiset(e.failedMarks))
  }

  ghost predicate Run(o0: Outbox, allowed: Option<set<string>>, steps: seq<Step>, o: Outbox)
    decreases |steps|
  {
    if steps == [] then o == o0
    else CanStep(o0, allowed, steps[0]) && Run(Next(o0, allowed, steps[0]), allowed, steps[1..], o)
  }

  function Start(records: seq<Row>): Outbox {
    Outbox(Fresh(records, MAX_RETRY_ATTEMPTS), multiset{}, {}, {}, NO_ROWS, multiset{})
  }

  function HandledRows(ended: seq<Ended<Row>>): seq<Row> {
    if ended == [] then []
    else if ended[|ended| - 1].fate == Handled then HandledRows(ended[..|ended| - 1]) + [ended[|ended| - 1].record]
    else HandledRows(ended[..|ended| - 1])
  }

  lemma {:induction false} HandledRowsSplit(ended: seq<Ended<Row>>, records: seq<Row>, fate: Fate)
    ensures HandledRows(ended + EndAll(records, fate))
         == HandledRows(ended) + if fate == Handled then records else []
    decreases |records|
  {
    if records == [] {
      assert ended + EndAll(records, fate) == ended;
    } else {
      var init := records[..|records| - 1];
      var all := ended + EndAll(records, fate);
      assert all[..|all| - 1] == ended + EndAll(init, fate);
      HandledRowsSplit(ended, init, fate);
      assert records == init + [records[|records| - 1]];
    }
  }

  lemma {:induction false} FilteredSplit(a: seq<Row>, b: seq<Row>, allowed: Option<set<string>>)
    ensures Filtered(a + b, allowed) == Filtered(a, allowed) + Filtered(b, allowed)
  {
    if a == [] {
      assert a + b == b;
    } else {
      assert (a + b)[1..] == a[1..] + b;
      FilteredSplit(a[1..], b, allowed);
    }
  }

  lemma {:induction false} FilteredFrom(records: seq<Row>, allowed: Option<set<string>>)
    ensures multiset(Filtered(records, allowed)) <= multiset(records)
    ensures forall r :: r in Filtered(records, allowed) <==> r in records && Publishable(r, allowed)
  {
    if records != [] {
      FilteredFrom(records[1..], allowed);
      assert records == [records[0]] + records[1..];
    }
  }

  lemma PrefixWithout(before: seq<Row>, after: seq<Row>, k: nat)
    requires k < |before + after| && (before + after)[k] !in before
    ensures |before| <= k && before <= (before + after)[..k]
  {
  }

  lemma FilteredAround(records: seq<Row>, allowed: Option<set<string>>, i: nat)
    requires i <= |records|
    ensures Filtered(records, allowed) == Filtered(records[..i], allowed) + Filtered(records[i..], allowed)
  {
    assert records == records[..i] + records[i..];
    FilteredSplit(records[..i], records[i..], allowed);
  }

  lemma FilteredIndex(records: seq<Row>, allowed: Option<set<string>>, row: Row)
    requires row in Filtered(records, allowed)
    ensures IndexOf(records, row) < |records|
    ensures row !in Filtered(records[..IndexOf(records, row)], allowed)
  {
    FilteredFrom(records, allowed);
    FilteredFrom(records[..IndexOf(records, row)], allowed);
  }

  /** What stands before the first unpublished row was published. */
  lemma BeforeFailed(records: seq<Row>, allowed: Option<set<string>>, k: nat)
    requires k < |Filtered(records, allowed)|
    ensures var i := IndexOf(records, Filtered(records, allowed)[k]);
      i < |records| && Filtered(records[..i], allowed) <= Filtered(records, allowed)[..k]
  {
    var row := Filtered(records, allowed)[k];
    FilteredIndex(records, allowed, row);
    var i := IndexOf(records, row);
    FilteredAround(records, allowed, i);
    PrefixWithout(Filtered(records[..i], allowed), Filtered(records[i..], allowed), k);
  }

  lemma PrefixBag(a: seq<Row>, b: seq<Row>)
    requires a <= b
    ensures multiset(a) <= multiset(b)
  {
    assert b == a + b[|a|..];
  }

  /** What the mapping gets past was published. */
  lemma PassedWasPublished(records: seq<Row>, allowed: Option<set<string>>, e: Effects, k: nat)
    requires Confirms(Filtered(records, allowed), e, k)
    ensures var passed := Passed(records, OutcomeOf(records, e));
      && passed <= |records|
      && (e.failed.Some? ==> passed < |records|)
      && multiset(Filtered(records[..passed], allowed)) <= multiset(e.taken)
  {
    var rows := Filtered(records, allowed);
    if k == |rows| {
      assert rows[..k] == rows && records[..|records|] == records;
    } else {
      BeforeFailed(records, allowed, k);
      PrefixBag(Filtered(records[..IndexOf(records, rows[k])], allowed), rows[..k]);
    }
  }

  ghost predicate Inv(o: Outbox, allowed: Option<set<string>>) {
    && WellFormed(o.shard, MAX_RETRY_ATTEMPTS)
    && o.published == Sum(o.unpassed) + multiset(Filtered(HandledRows(o.shard.ended), allowed))
    && (forall r :: r in o.sent ==> r in o.published)
    && (forall r :: r in HandledRows(o.shard.ended) && !Publishable(r, allowed) ==> r in o.flagged)
    && (forall r :: r in o.published ==> Publishable(r, allowed))
    && (forall r :: r in o.flagged ==> !Publishable(r, allowed))
  }

  lemma PrefixEnds(s: Shard<Row>, n: nat, fate: Fate)
    requires s.pending != [] && n <= |s.pending[0].records|
    ensures HandledRows(EndPrefix(s, n, fate).ended)
         == if fate == Handled then HandledRows(s.ended) + s.pending[0].records[..n] else HandledRows(s.ended)
  {
    HandledRowsSplit(s.ended, s.pending[0].records[..n], fate);
    assert HandledRows(s.ended) + [] == HandledRows(s.ended);
  }

  lemma FailEnds(s: Shard<Row>, step: StreamMapping.Step)
    requires StreamMapping.CanStep(s, step) && step.Invoke?
    ensures HandledRows(Fail(s, MAX_RETRY_ATTEMPTS, step).ended) == HandledRows(s.ended)
  {
    HandledRowsSplit(s.ended, s.pending[0].records, OnFailureQueue);
    assert HandledRows(s.ended) + [] == HandledRows(s.ended);
  }

  lemma InvokeEnds(s: Shard<Row>, outcome: Outcome, halve: bool, cut: nat)
    requires StreamMapping.CanStep(s, Invoke(outcome, halve, cut)) && s.pending[0].records != []
    ensures var records := s.pending[0].records;
      HandledRows(StreamMapping.Next(s, MAX_RETRY_ATTEMPTS, Invoke(outcome, halve, cut)).ended)
        == HandledRows(s.ended) + records[..Passed(records, outcome)]
  {
    var records := s.pending[0].records;
    PrefixEnds(s, Passed(records, outcome), Handled);
    FailEnds(s, Invoke(outcome, halve, cut));
    assert records[..0] == [] && HandledRows(s.ended) + [] == HandledRows(s.ended);
  }

  lemma ShardEnds(s: Shard<Row>, step: StreamMapping.Step)
    requires StreamMapping.CanStep(s, step) && s.pending[0].records != []
    ensures var records := s.pending[0].records;
      var s' := StreamMapping.Next(s, MAX_RETRY_ATTEMPTS, step);
      var passed := if step.Invoke? then Passed(records, step.outcome) else 0;
      HandledRows(s'.ended) == HandledRows(s.ended) + records[..passed]
  {
    match step
    case Expire(count) =>
      PrefixEnds(s, count, OnFailureQueue);
      assert HandledRows(s.ended) + [] == HandledRows(s.ended);
    case Invoke(outcome, halve, cut) => InvokeEnds(s, outcome, halve, cut);
  }

  /** Whatever an invocation did, it published only what it was asked, and published all that the
      mapping then gets past. */
  lemma InvocationConfirms(o: Outbox, allowed: Option<set<string>>, step: Step)
    requires CanStep(o, allowed, step)
    ensures var records := o.shard.pending[0].records;
      var e := EffectsOf(records, allowed, step);
      var passed := if step.Attempt? then Passed(records, OutcomeOf(records, e)) else 0;
      && passed <= |records|
      && multiset(Filtered(records[..passed], allowed)) <= multiset(e.taken)
      && multiset(e.marked) <= if step.Crash? then step.published else multiset(e.taken)
  {
    var records := o.shard.pending[0].records;
    if step.Attempt? {
      var rows := Filtered(records, allowed);
      var k := DrainConfirms(rows, step.responses);
      PassedWasPublished(records, allowed, DrainOf(rows, step.responses), k);
    } else {
      assert records[..0] == [];
    }
  }

  lemma BagMath(
    p: multiset<Row>, u: Unpassed, h: multiset<Row>, crashed: multiset<Row>, arrived: multiset<Row>,
    extra: multiset<Row>, taken: multiset<Row>, passed: multiset<Row>)
    requires p == Sum(u) + h && passed <= taken
    ensures p + (crashed + arrived + (extra + taken))
         == Sum(Unpassed(u.crashed + crashed, u.unanswered + arrived, u.repeated + extra,
                         u.behind + (taken - passed)))
            + (h + passed)
  {
  }

  lemma FilteredBag(a: seq<Row>, b: seq<Row>, allowed: Option<set<string>>)
    ensures multiset(Filtered(a + b, allowed)) == multiset(Filtered(a, allowed)) + multiset(Filtered(b, allowed))
  {
    FilteredSplit(a, b, allowed);
  }

  /** How many records of the batch the mapping gets past in the step. */
  function PassedBy(records: seq<Row>, allowed: Option<set<string>>, step: Step): nat
    requires step.Attempt? ==> Answered(Filtered(records, allowed), step.responses)
  {
    if step.Attempt? then Passed(records, OutcomeOf(records, EffectsOf(records, allowed, step))) else 0
  }

  lemma StepEnds(o: Outbox, allowed: Option<set<string>>, step: Step)
    requires Inv(o, allowed) && CanStep(o, allowed, step)
    ensures var records := o.shard.pending[0].records; var passed := PassedBy(records, allowed, step);
      && passed <= |records|
      && HandledRows(Next(o, allowed, step).shard.ended) == HandledRows(o.shard.ended) + records[..passed]
  {
    var records := o.shard.pending[0].records;
    assert o.shard.pending[0] in o.shard.pending;
    InvocationConfirms(o, allowed, step);
    ShardEnds(o.shard, MappingStep(records, EffectsOf(records, allowed, step), step));
  }

  lemma StepBalances(o: Outbox, allowed: Option<set<string>>, step: Step)
    requires Inv(o, allowed) && CanStep(o, allowed, step)
    ensures var o' := Next(o, allowed, step);
      o'.published == Sum(o'.unpassed) + multiset(Filtered(HandledRows(o'.shard.ended), allowed))
  {
    var records := o.shard.pending[0].records;
    var e := EffectsOf(records, allowed, step);
    var passed := PassedBy(records, allowed, step);
    InvocationConfirms(o, allowed, step);
    StepEnds(o, allowed, step);
    var handled := HandledRows(o.shard.ended);
    FilteredBag(handled, records[..passed], allowed);
    BagMath(o.published, o.unpassed, multiset(Filtered(handled, allowed)),
            if step.Crash? then step.published else multiset{}, e.arrived, e.extra,
            multiset(e.taken), multiset(Filtered(records[..passed], allowed)));
  }

  lemma StepMarksPublished(o: Outbox, allowed: Option<set<string>>, step: Step)
    requires Inv(o, allowed) && CanStep(o, allowed, step)
    ensures var o' := Next(o, allowed, step); forall r :: r in o'.sent ==> r in o'.published
  {
    var e := EffectsOf(o.shard.pending[0].records, allowed, step);
    InvocationConfirms(o, allowed, step);
    forall r | r in e.marked ensures r in Next(o, allowed, step).published {
      assert r in multiset(e.marked);
    }
  }

  lemma StepPublishesAllowed(o: Outbox, allowed: Option<set<string>>, step: Step, r: Row)
    requires Inv(o, allowed) && CanStep(o, allowed, step) && r in Next(o, allowed, step).published
    ensures Publishable(r, allowed)
  {
    var records := o.shard.pending[0].records;
    FilteredFrom(records, allowed);
    if r !in o.published && step.Attempt? {
      var rows := Filtered(records, allowed);
      var e := DrainOf(rows, step.responses);
      var k := DrainConfirms(rows, step.responses);
      assert r in multiset(e.taken) || r in e.extra || r in e.arrived;
      assert r in multiset(e.taken) ==> r in multiset(rows);
    }
  }

  lemma StepFlags(o: Outbox, allowed: Option<set<string>>, step: Step, r: Row)
    requires Inv(o, allowed) && CanStep(o, allowed, step)
    requires r in HandledRows(Next(o, allowed, step).shard.ended) && !Publishable(r, allowed)
    ensures r in Next(o, allowed, step).flagged
  {
    var records := o.shard.pending[0].records;
    StepEnds(o, allowed, step);
    if r !in HandledRows(o.shard.ended) {
      assert r in records[..PassedBy(records, allowed, step)] && r in records;
    }
  }

  lemma StepKeepsInv(o: Outbox, allowed: Option<set<string>>, step: Step)
    requires Inv(o, allowed) && CanStep(o, allowed, step)
    ensures Inv(Next(o, allowed, step), allowed)
  {
    var records := o.shard.pending[0].records;
    var mapping := MappingStep(records, EffectsOf(records, allowed, step), step);
    StepKeepsRecords(o.shard, MAX_RETRY_ATTEMPTS, mapping);
    StepBalances(o, allowed, step);
    StepMarksPublished(o, allowed, step);
    var o' := Next(o, allowed, step);
    forall r | r in HandledRows(o'.shard.ended) && !Publishable(r, allowed) ensures r in o'.flagged {
      StepFlags(o, allowed, step, r);
    }
    forall r | r in o'.published ensures Publishable(r, allowed) {
      StepPublishesAllowed(o, allowed, step, r);
    }
  }

  lemma {:induction false} RunKeepsInv(o0: Outbox, allowed: Option<set<string>>, steps: seq<Step>, o: Outbox)
    requires Inv(o0, allowed) && Run(o0, allowed, steps, o)
    ensures Inv(o, allowed) && Records(o.shard) == Records(o0.shard)
    decreases |steps|
  {
    if steps != [] {
      StepKeepsInv(o0, allowed, steps[0]);
      var records := o0.shard.pending[0].records;
      StepKeepsRecords(o0.shard, MAX_RETRY_ATTEMPTS,
                       MappingStep(records, EffectsOf(records, allowed, steps[0]), steps[0]));
      RunKeepsInv(Next(o0, allowed, steps[0]), allowed, steps[1..], o);
    }
  }

  lemma StartInv(records: seq<Row>, allowed: Option<set<string>>)
    requires records != []
    ensures Inv(Start(records), allowed) && Records(Start(records).shard) == records
  {
    var s0 := Fresh(records, MAX_RETRY_ATTEMPTS);
    assert Pending(s0.pending) == records + [] == records;
  }

  /** A row that carries `sentAt` was published, in every reachable state. */
  lemma SentWasPublished(records: seq<Row>, allowed: Option<set<string>>, steps: seq<Step>, o: Outbox, row: Row)
    requires records != [] && Run(Start(records), allowed, steps, o)
    ensures row in o.sent ==> o.published[row] > 0
  {
    StartInv(records, allowed);
    RunKeepsInv(Start(records), allowed, steps, o);
  }

  predicate Distinct(records: seq<Row>) {
    forall i, j :: 0 <= i < j < |records| ==> records[i] != records[j]
  }

  lemma {:induction false} DistinctBag(records: seq<Row>, row: Row)
    requires Distinct(records)
    ensures multiset(records)[row] <= 1
  {
    if records != [] {
      DistinctBag(records[1..], row);
      assert records == [records[0]] + records[1..];
      assert row == records[0] ==> row !in records[1..];
    }
  }

  lemma {:induction false} HandledRowsFrom(ended: seq<Ended<Row>>)
    ensures multiset(HandledRows(ended)) <= multiset(EndedRecords(ended))
    ensures forall e :: e in ended && e.fate == Handled ==> e.record in HandledRows(ended)
    decreases |ended|
  {
    if ended != [] {
      var init, last := ended[..|ended| - 1], ended[|ended| - 1];
      HandledRowsFrom(init);
      assert EndedRecords(ended) == EndedRecords(init) + [last.record];
      assert ended == init + [last];
    }
  }

  lemma HandledOnce(records: seq<Row>, allowed: Option<set<string>>, steps: seq<Step>, o: Outbox)
    requires records != [] && Run(Start(records), allowed, steps, o)
    ensures Inv(o, allowed) && multiset(HandledRows(o.shard.ended)) <= multiset(records)
    ensures EndedRecords(o.shard.ended) + Pending(o.shard.pending) == records
  {
    StartInv(records, allowed);
    RunKeepsInv(Start(records), allowed, steps, o);
    HandledRowsFrom(o.shard.ended);
    PrefixBag(EndedRecords(o.shard.ended), records);
  }

  /** When the mapping is done with a batch, every row of it is on the on-failure queue, or was
      published, or was counted as one that cannot be; and that holds whatever failed on the way. No row
      that is incomplete or of a type that is not allowed is ever published, and no other is counted. */
  lemma EveryRowIsAccountedFor(
    records: seq<Row>, allowed: Option<set<string>>, steps: seq<Step>, o: Outbox, i: nat)
    requires records != [] && Run(Start(records), allowed, steps, o)
    requires o.shard.pending == [] && i < |records|
    ensures |o.shard.ended| == |records| && o.shard.ended[i].record == records[i]
    ensures
      || o.shard.ended[i].fate == OnFailureQueue
      || (if records[i].complete && (allowed == None || records[i].eventType in allowed.value)
          then o.published[records[i]] > 0 else records[i] in o.flagged)
    ensures forall r :: r in o.published ==> r.complete && (allowed == None || r.eventType in allowed.value)
    ensures forall r :: r in o.flagged ==> !(r.complete && (allowed == None || r.eventType in allowed.value))
  {
    HandledOnce(records, allowed, steps, o);
    assert Pending(o.shard.pending) == [] && EndedRecords(o.shard.ended) == records;
    assert EndedRecords(o.shard.ended)[i] == o.shard.ended[i].record;
    if o.shard.ended[i].fate == Handled {
      HandledRowIsThere(o, allowed, o.shard.ended[i]);
    }
  }

  lemma HandledRowIsThere(o: Outbox, allowed: Option<set<string>>, e: Ended<Row>)
    requires Inv(o, allowed) && e in o.shard.ended && e.fate == Handled
    ensures
      if Publishable(e.record, allowed) then o.published[e.record] > 0 else e.record in o.flagged
  {
    HandledRowsFrom(o.shard.ended);
    FilteredFrom(HandledRows(o.shard.ended), allowed);
    assert e.record in HandledRows(o.shard.ended);
    if Publishable(e.record, allowed) {
      assert e.record in multiset(Filtered(HandledRows(o.shard.ended), allowed));
    }
  }

  /** How often a row was published, exactly and by cause: once if the mapping got past it, and once more
      for each time its event reached the bus in an invocation that died, in a request that got no
      answer, in an earlier copy of an answered one, or behind a row that failed. What became of the
      `sentAt` updates has no part in it. */
  lemma PublishedExactly(
    records: seq<Row>, allowed: Option<set<string>>, steps: seq<Step>, o: Outbox, row: Row)
    requires records != [] && Distinct(records) && Run(Start(records), allowed, steps, o)
    ensures var u := o.unpassed;
      if row.complete && (allowed == None || row.eventType in allowed.value) then
        o.published[row] == u.crashed[row] + u.unanswered[row] + u.repeated[row] + u.behind[row]
                            + if row in HandledRows(o.shard.ended) then 1 else 0
      else
        o.published[row] == 0
  {
    HandledOnce(records, allowed, steps, o);
    assert Publishable(row, allowed) <==> row.complete && (allowed == None || row.eventType in allowed.value);
    if Publishable(row, allowed) {
      HandledCount(records, HandledRows(o.shard.ended), allowed, row);
    } else {
      assert row !in o.published;
    }
  }

  lemma HandledCount(records: seq<Row>, handled: seq<Row>, allowed: Option<set<string>>, row: Row)
    requires Distinct(records) && multiset(handled) <= multiset(records) && Publishable(row, allowed)
    ensures multiset(Filtered(handled, allowed))[row] == if row in handled then 1 else 0
  {
    DistinctBag(records, row);
    FilteredFrom(handled, allowed);
    assert multiset(Filtered(handled, allowed))[row] <= multiset(handled)[row] <= 1;
    assert row in handled <==> row in Filtered(handled, allowed);
  }

  // ---- Failed marks do not bound the duplicates

  /** What a run may contain: invocations that die, or whose answer is lost, once they published;
      requests that arrive and get no answer; and requests that arrive and are sent again. */
  datatype Causes = Causes(crashes: bool, unanswered: bool, repeats: bool)

  const NO_CAUSES := Causes(false, false, false)

  predicate AdmitsResponse(c: Causes, response: Response) {
    match response
    case Entries(_, extra) => c.repeats || extra == multiset{}
    case Unavailable(arrived) => c.unanswered || arrived == multiset{}
  }

  predicate Admits(c: Causes, step: Step) {
    match step
    case Attempt(responses, _, _) => forall r :: r in responses ==> AdmitsResponse(c, r)
    case Crash(published, _, _, _) => c.crashes || published == multiset{}
    case Expire(_) => true
  }

  /** In every such run over a batch of at most `size` rows, no row is published more often than once
      plus the number of its failed marks. */
  ghost predicate FailedMarksBoundDuplicates(size: nat, c: Causes) {
    forall records: seq<Row>, allowed, steps: seq<Step>, o: Outbox, row ::
      && 0 < |records| <= size && Distinct(records)
      && (forall s :: s in steps ==> Admits(c, s)) && Run(Start(records), allowed, steps, o)
      ==> o.published[row] <= 1 + o.failedMarks[row]
  }

  lemma {:induction false} DrainAdmits(rows: seq<Row>, responses: seq<Response>, c: Causes)
    requires Answered(rows, responses) && forall r :: r in responses ==> AdmitsResponse(c, r)
    ensures !c.unanswered ==> DrainOf(rows, responses).arrived == multiset{}
    ensures !c.repeats ==> DrainOf(rows, responses).extra == multiset{}
    decreases |rows|
  {
    if rows != [] {
      assert responses[0] in responses && AdmitsResponse(c, responses[0]);
      if responses[0].Entries? {
        SettleIsAnswered(Chunk(rows), responses[0].entries);
      }
      if Put(Chunk(rows), responses[0]).failed.None? {
        forall r | r in responses[1..] ensures AdmitsResponse(c, r) { assert r in responses; }
        DrainAdmits(AfterChunk(rows), responses[1..], c);
      }
    }
  }

  lemma StepAdmits(o: Outbox, allowed: Option<set<string>>, step: Step, c: Causes)
    requires CanStep(o, allowed, step) && Admits(c, step)
    ensures var u, u' := o.unpassed, Next(o, allowed, step).unpassed;
      && (!c.crashes ==> u'.crashed == u.crashed)
      && (!c.unanswered ==> u'.unanswered == u.unanswered)
      && (!c.repeats ==> u'.repeated == u.repeated)
  {
    if step.Attempt? {
      DrainAdmits(Filtered(o.shard.pending[0].records, allowed), step.responses, c);
    }
  }

  /** What a run does not contain publishes nothing, for any batch. */
  lemma {:induction false} RunAdmits(
    o0: Outbox, allowed: Option<set<string>>, steps: seq<Step>, o: Outbox, c: Causes)
    requires Run(o0, allowed, steps, o) && forall s :: s in steps ==> Admits(c, s)
    ensures var u, u' := o0.unpassed, o.unpassed;
      && (!c.crashes ==> u'.crashed == u.crashed)
      && (!c.unanswered ==> u'.unanswered == u.unanswered)
      && (!c.repeats ==> u'.repeated == u.repeated)
    decreases |steps|
  {
    if steps != [] {
      assert steps[0] in steps;
      StepAdmits(o0, allowed, steps[0], c);
      forall s | s in steps[1..] ensures Admits(c, s) { assert s in steps; }
      RunAdmits(Next(o0, allowed, steps[0]), allowed, steps[1..], o, c);
    }
  }

  lemma SingleRowDrain(row: Row, responses: seq<Response>)
    requires Answered([row], responses)
    ensures DrainOf([row], responses).failed.Some? ==> DrainOf([row], responses).taken == []
  {
    assert Chunk([row]) == [row] && AfterChunk([row]) == [];
    match responses[0]
    case Unavailable(_) =>
    case Entries(entries, _) => assert [row][1..] == [] && Settle([], entries[1..]) == NOTHING;
  }

  /** With one row in the batch, nothing is ever taken that the mapping does not get past. */
  lemma SingleRowIsNotBehind(o: Outbox, allowed: Option<set<string>>, step: Step, row: Row)
    requires CanStep(o, allowed, step) && o.shard.pending[0].records == [row]
    ensures Next(o, allowed, step).unpassed.behind == o.unpassed.behind
  {
    assert [row][1..] == [] && [row][..1] == [row] && [row][..0] == [];
    assert [row] + [] == [row] && Filtered([], allowed) == [];
    var rows := Filtered([row], allowed);
    assert rows == if Publishable(row, allowed) then [row] else [];
    if step.Attempt? {
      var k := DrainConfirms(rows, step.responses);
      if rows == [row] {
        SingleRowDrain(row, step.responses);
      }
    }
  }

  lemma OneStepRun(o: Outbox, allowed: Option<set<string>>, step: Step)
    requires Inv(o, allowed) && CanStep(o, allowed, step)
    ensures Inv(Next(o, allowed, step), allowed)
    ensures Records(Next(o, allowed, step).shard) == Records(o.shard)
  {
    StepKeepsInv(o, allowed, step);
    var records := o.shard.pending[0].records;
    StepKeepsRecords(o.shard, MAX_RETRY_ATTEMPTS, MappingStep(records, EffectsOf(records, allowed, step), step));
  }

  lemma SingleRecord(o: Outbox, allowed: Option<set<string>>)
    requires Inv(o, allowed) && |Records(o.shard)| <= 1 && o.shard.pending != []
    ensures |o.shard.pending[0].records| == 1
  {
    assert o.shard.pending[0] in o.shard.pending;
    assert |o.shard.pending[0].records| <= |Pending(o.shard.pending)| <= |Records(o.shard)|;
  }

  lemma {:induction false} SingleRowRun(o0: Outbox, allowed: Option<set<string>>, steps: seq<Step>, o: Outbox)
    requires Inv(o0, allowed) && Run(o0, allowed, steps, o) && |Records(o0.shard)| <= 1
    ensures o.unpassed.behind == o0.unpassed.behind
    decreases |steps|
  {
    if steps != [] {
      SingleRecord(o0, allowed);
      var row := o0.shard.pending[0].records[0];
      assert o0.shard.pending[0].records == [row];
      SingleRowIsNotBehind(o0, allowed, steps[0], row);
      OneStepRun(o0, allowed, steps[0]);
      SingleRowRun(Next(o0, allowed, steps[0]), allowed, steps[1..], o);
    }
  }

  lemma AttemptIsPossible(o: Outbox, records: seq<Row>, responses: seq<Response>, e: Effects)
    requires o.shard.pending != [] && o.shard.pending[0].records == records
    requires Filtered(records, None) == records && Answered(records, responses) && DrainOf(records, responses) == e
    ensures CanStep(o, None, Attempt(responses, false, 1))
    ensures var o' := Next(o, None, Attempt(responses, false, 1));
      && o'.published == o.published + (e.arrived + (e.extra + multiset(e.taken)))
      && o'.failedMarks == o.failedMarks + multiset(e.failedMarks)
  {
    assert multiset{} + e.arrived == e.arrived;
  }

  /** The effects of a request whose answered rows were all marked. */
  function AllMarked(taken: seq<Row>, failed: Option<Row>): Effects {
    NOTHING.(taken := taken, marked := taken, failed := failed)
  }

  const TAKEN := Taken(Marked)

  function Answer(entries: seq<Entry>): seq<Response> {
    [Entries(entries, multiset{})]
  }

  lemma TwoRowDrain(a: Row, b: Row, first: Entry)
    requires a != b && a.complete && b.complete && (first == TAKEN || first == Refused)
    ensures Filtered([a, b], None) == [a, b] && Answered([a, b], Answer([first, TAKEN]))
    ensures DrainOf([a, b], Answer([first, TAKEN]))
         == if first.Refused? then AllMarked([b], Some(a)) else AllMarked([a, b], None)
  {
    var rows := [a, b];
    assert rows[1..] == [b] && [b][1..] == [];
    assert [first, TAKEN][1..] == [TAKEN] && [TAKEN][1..] == [];
    assert Filtered([b], None) == [b];
    assert Settle([b], [TAKEN]) == AllMarked([b], None);
    assert Chunk(rows) == rows && AfterChunk(rows) == [];
  }

  lemma TwoSteps(o0: Outbox, allowed: Option<set<string>>, first: Step, second: Step, o: Outbox)
    requires CanStep(o0, allowed, first) && CanStep(Next(o0, allowed, first), allowed, second)
    requires o == Next(Next(o0, allowed, first), allowed, second)
    ensures Run(o0, allowed, [first, second], o)
  {
    assert [first, second][1..] == [second] && [second][1..] == [];
    assert Run(o, allowed, [], o) && Run(Next(o0, allowed, first), allowed, [second], o);
  }

  lemma AnswersAreAdmitted(entries: seq<Entry>)
    ensures Admits(NO_CAUSES, Attempt(Answer(entries), false, 1))
  {
  }

  lemma BehindAFailure(a: Row, b: Row) returns (o: Outbox)
    requires a != b && a.complete && b.complete
    ensures CanStep(Start([a, b]), None, Attempt(Answer([Refused, TAKEN]), false, 1))
    ensures o == Next(Start([a, b]), None, Attempt(Answer([Refused, TAKEN]), false, 1))
    ensures o.shard.pending != [] && o.shard.pending[0].records == [a, b]
    ensures o.published == multiset{b} && o.failedMarks == multiset{}
  {
    TwoRowDrain(a, b, Refused);
    AttemptIsPossible(Start([a, b]), [a, b], Answer([Refused, TAKEN]), AllMarked([b], Some(a)));
    o := Next(Start([a, b]), None, Attempt(Answer([Refused, TAKEN]), false, 1));
  }

  lemma TakenOnRetry(o: Outbox, a: Row, b: Row) returns (o': Outbox)
    requires a != b && a.complete && b.complete
    requires o.shard.pending != [] && o.shard.pending[0].records == [a, b]
    requires o.published == multiset{b} && o.failedMarks == multiset{}
    ensures CanStep(o, None, Attempt(Answer([TAKEN, TAKEN]), false, 1))
    ensures o' == Next(o, None, Attempt(Answer([TAKEN, TAKEN]), false, 1))
    ensures o'.published[b] == 2 && o'.failedMarks[b] == 0
  {
    TwoRowDrain(a, b, TAKEN);
    AttemptIsPossible(o, [a, b], Answer([TAKEN, TAKEN]), AllMarked([a, b], None));
    o' := Next(o, None, Attempt(Answer([TAKEN, TAKEN]), false, 1));
    TwiceThere(a, b);
  }

  lemma TwiceThere(a: Row, b: Row)
    requires a != b
    ensures (multiset{b} + (multiset{} + (multiset{} + multiset([a, b]))))[b] == 2
  {
  }

  /** Two rows in one request, of which the bus takes only the second; the retry takes both. The
      second is published twice though both of its marks succeeded. */
  lemma RepublishedBehindAFailure(a: Row, b: Row) returns (steps: seq<Step>, o: Outbox)
    requires a != b && a.complete && b.complete
    ensures Run(Start([a, b]), None, steps, o) && forall s :: s in steps ==> Admits(NO_CAUSES, s)
    ensures o.published[b] == 2 && o.failedMarks[b] == 0
  {
    var o1 := BehindAFailure(a, b);
    o := TakenOnRetry(o1, a, b);
    var first, second := Attempt(Answer([Refused, TAKEN]), false, 1), Attempt(Answer([TAKEN, TAKEN]), false, 1);
    steps := [first, second];
    TwoSteps(Start([a, b]), None, first, second, o);
    AnswersAreAdmitted([Refused, TAKEN]);
    AnswersAreAdmitted([TAKEN, TAKEN]);
  }

  lemma OneRowDrain(row: Row, extra: multiset<Row>)
    requires row.complete && Among(extra, [row])
    ensures Filtered([row], None) == [row] && Answered([row], [Entries([TAKEN], extra)])
    ensures DrainOf([row], [Entries([TAKEN], extra)]) == AllMarked([row], None).(extra := extra)
  {
    assert [row][1..] == [] && [TAKEN][1..] == [];
    assert Settle([row], [TAKEN]) == AllMarked([row], None);
    assert Chunk([row]) == [row] && AfterChunk([row]) == [];
  }

  /** The retry of a batch of one row that was published, unknown to the mapping. */
  lemma RetryPublishesAgain(row: Row, first: Step) returns (steps: seq<Step>, o: Outbox)
    requires row.complete && CanStep(Start([row]), None, first)
    requires var o1 := Next(Start([row]), None, first);
      && o1.shard.pending != [] && o1.shard.pending[0].records == [row]
      && o1.published == multiset{row} && o1.failedMarks == multiset{}
    ensures steps == [first, Attempt(Answer([TAKEN]), false, 1)] && Run(Start([row]), None, steps, o)
    ensures o.published[row] == 2 && o.failedMarks[row] == 0
  {
    var o1 := Next(Start([row]), None, first);
    OneRowDrain(row, multiset{});
    AttemptIsPossible(o1, [row], Answer([TAKEN]), AllMarked([row], None));
    o := Next(o1, None, Attempt(Answer([TAKEN]), false, 1));
    steps := [first, Attempt(Answer([TAKEN]), false, 1)];
    TwoSteps(Start([row]), None, first, Attempt(Answer([TAKEN]), false, 1), o);
  }

  /** A worker that dies after it published and marked its only row: the retry publishes it again, and
      no mark has failed. */
  lemma RepublishedAfterACrash(row: Row) returns (steps: seq<Step>, o: Outbox)
    requires row.complete
    ensures Run(Start([row]), None, steps, o) && forall s :: s in steps ==> Admits(Causes(true, false, false), s)
    ensures o.published[row] == 2 && o.failedMarks[row] == 0
  {
    var crash := Crash(multiset{row}, [row], [], 0);
    assert [row][1..] == [] && Filtered([row], None) == [row];
    assert Next(Start([row]), None, crash).shard.pending[0].records == [row];
    steps, o := RetryPublishesAgain(row, crash);
  }

  /** A request that arrives and gets no answer: no mark is attempted, and the retry publishes again. */
  lemma RepublishedUnanswered(row: Row) returns (steps: seq<Step>, o: Outbox)
    requires row.complete
    ensures Run(Start([row]), None, steps, o) && forall s :: s in steps ==> Admits(Causes(false, true, false), s)
    ensures o.published[row] == 2 && o.failedMarks[row] == 0
  {
    var lost := [Unavailable(multiset{row})];
    assert [row][1..] == [] && Filtered([row], None) == [row];
    assert Chunk([row]) == [row] && AfterChunk([row]) == [] && Answered([row], lost);
    AttemptIsPossible(Start([row]), [row], lost, NOTHING.(arrived := multiset{row}, failed := Some(row)));
    steps, o := RetryPublishesAgain(row, Attempt(lost, false, 1));
  }

  /** A request whose first answer is lost and that the client sends again: one invocation, both copies
      taken, and the mark succeeds. */
  lemma RepublishedByTheClient(row: Row) returns (steps: seq<Step>, o: Outbox)
    requires row.complete
    ensures Run(Start([row]), None, steps, o) && forall s :: s in steps ==> Admits(Causes(false, false, true), s)
    ensures o.published[row] == 2 && o.failedMarks[row] == 0
  {
    var twice := [Entries([TAKEN], multiset{row})];
    OneRowDrain(row, multiset{row});
    AttemptIsPossible(Start([row]), [row], twice, AllMarked([row], None).(extra := multiset{row}));
    o := Next(Start([row]), None, Attempt(twice, false, 1));
    steps := [Attempt(twice, false, 1)];
    assert steps[1..] == [] && Run(o, None, [], o);
  }

  lemma SingleRowBound(records: seq<Row>, allowed: Option<set<string>>, steps: seq<Step>, o: Outbox, row: Row)
    requires |records| == 1 && Run(Start(records), allowed, steps, o)
    requires forall s :: s in steps ==> Admits(NO_CAUSES, s)
    ensures o.published[row] <= 1
  {
    StartInv(records, allowed);
    SingleRowRun(Start(records), allowed, steps, o);
    RunAdmits(Start(records), allowed, steps, o, NO_CAUSES);
    HandledOnce(records, allowed, steps, o);
    FilteredFrom(HandledRows(o.shard.ended), allowed);
    DistinctBag(records, row);
  }

  lemma MoreCauses(c: Causes, d: Causes, steps: seq<Step>)
    requires c.crashes ==> d.crashes
    requires c.unanswered ==> d.unanswered
    requires c.repeats ==> d.repeats
    requires forall s :: s in steps ==> Admits(c, s)
    ensures forall s :: s in steps ==> Admits(d, s)
  {
    forall s | s in steps ensures Admits(d, s) {
      assert Admits(c, s);
      if s.Attempt? {
        forall r | r in s.responses ensures AdmitsResponse(d, r) { assert AdmitsResponse(c, r); }
      }
    }
  }

  lemma SingleRowBreaks(c: Causes) returns (row: Row, steps: seq<Step>, o: Outbox)
    requires c != NO_CAUSES
    ensures Run(Start([row]), None, steps, o) && forall s :: s in steps ==> Admits(c, s)
    ensures o.published[row] == 2 && o.failedMarks[row] == 0
  {
    row := Row(1, true, "");
    if c.crashes {
      steps, o := RepublishedAfterACrash(row);
      MoreCauses(Causes(true, false, false), c, steps);
    } else if c.unanswered {
      steps, o := RepublishedUnanswered(row);
      MoreCauses(Causes(false, true, false), c, steps);
    } else {
      steps, o := RepublishedByTheClient(row);
      MoreCauses(Causes(false, false, true), c, steps);
    }
  }

  lemma TwoRowsBreak(c: Causes) returns (a: Row, b: Row, steps: seq<Step>, o: Outbox)
    ensures Distinct([a, b]) && Run(Start([a, b]), None, steps, o) && forall s :: s in steps ==> Admits(c, s)
    ensures o.published[b] == 2 && o.failedMarks[b] == 0
  {
    a, b := Row(1, true, ""), Row(2, true, "");
    steps, o := RepublishedBehindAFailure(a, b);
    MoreCauses(NO_CAUSES, c, steps);
  }

  /** Failed marks bound the duplicates exactly when there are no batches at all, or batches of one row
      only and no invocation dies or loses its answer once it published, no request arrives unanswered,
      and none is sent again once it arrived. */
  lemma FailedMarksBoundDuplicatesIffSingle(size: nat, c: Causes)
    ensures FailedMarksBoundDuplicates(size, c) <==> size == 0 || (size == 1 && c == NO_CAUSES)
  {
    if size == 1 && c == NO_CAUSES {
      forall records: seq<Row>, allowed, steps: seq<Step>, o: Outbox, row |
        && 0 < |records| <= size && Distinct(records)
        && (forall s :: s in steps ==> Admits(c, s)) && Run(Start(records), allowed, steps, o)
        ensures o.published[row] <= 1 + o.failedMarks[row]
      {
        SingleRowBound(records, allowed, steps, o, row);
      }
    } else if size == 1 {
      var row, steps, o := SingleRowBreaks(c);
      assert Distinct([row]) && o.published[row] > 1 + o.failedMarks[row];
    } else if size > 1 {
      var a, b, steps, o := TwoRowsBreak(c);
      assert o.published[b] > 1 + o.failedMarks[b];
    }
  }
}
