/** The content of one dispatch as CAD messages about its incident arrive: the first message pages
    and creates it, every later one updates it, is kept as history, or is a duplicate. */
module CadUpdates {
  import opened MemberStatus

  datatype Field = IncidentType | Address | CrossStreets | UnitsRequested | Narrative

  datatype Content = Content(
    incidentType: string, address: string, crossStreets: string, unitsRequested: string, narrative: string)

  datatype Parse = PARSED | RAW

  /** `hash` is the digest of the message's text, `time` its dispatch time where that resolves. */
  datatype Message = Message(hash: string, content: Content, parse: Parse, typeCarried: bool, time: Option<int>)

  /** How a later message was recorded. Only a recorded change owes the crew a notice. */
  datatype Kind = Recorded | Unchanged | History

  /** `count` is the revision every applied update advances; `seen` the hashes of every message
      accepted, `updates` those of the later ones. */
  datatype Dispatch = Dispatch(
    content: Content,
    parse: Parse,
    hash: string,
    time: Option<int>,
    count: nat,
    updates: map<string, Kind>,
    seen: set<string>)

  function Get(c: Content, f: Field): string {
    match f
    case IncidentType => c.incidentType
    case Address => c.address
    case CrossStreets => c.crossStreets
    case UnitsRequested => c.unitsRequested
    case Narrative => c.narrative
  }

  /** Whether the message may set the field of a dispatch whose content is `parse`d so far. */
  predicate Candidate(parse: Parse, m: Message, f: Field) {
    if m.parse.RAW? then f.Narrative?
    else f.IncidentType? ==> m.typeCarried || parse.RAW?
  }

  predicate Changes(d: Dispatch, m: Message, f: Field) {
    && Candidate(d.parse, m, f)
    && Get(m.content, f) != ""
    && Get(d.content, f) != Get(m.content, f)
  }

  predicate ChangesAny(d: Dispatch, m: Message) {
    exists f: Field :: Changes(d, m, f)
  }

  predicate Older(d: Dispatch, m: Message) {
    m.time.Some? && d.time.Some? && m.time.value < d.time.value
  }

  function Create(m: Message): Dispatch {
    Dispatch(m.content, m.parse, m.hash, m.time, 0, map[], {m.hash})
  }

  /** The fields the message changes, as compared with `read`, set on `current`. */
  function Written(current: Content, read: Dispatch, m: Message): Content {
    Content(
      if Changes(read, m, IncidentType) then m.content.incidentType else current.incidentType,
      if Changes(read, m, Address) then m.content.address else current.address,
      if Changes(read, m, CrossStreets) then m.content.crossStreets else current.crossStreets,
      if Changes(read, m, UnitsRequested) then m.content.unitsRequested else current.unitsRequested,
      if Changes(read, m, Narrative) then m.content.narrative else current.narrative)
  }

  /** How the message is recorded, as compared with the dispatch that was read. */
  function KindOf(read: Dispatch, m: Message): Kind {
    if Older(read, m) then History else if ChangesAny(read, m) then Recorded else Unchanged
  }

  /** The transaction as computed from the dispatch that was read, applied to the one there is. */
  function Write(current: Dispatch, read: Dispatch, m: Message): Dispatch {
    var kind := KindOf(read, m);
    var recorded := current.(updates := current.updates[m.hash := kind], seen := current.seen + {m.hash});
    if kind.History? then recorded
    else
      recorded.(
        content := Written(current.content, read, m),
        parse := if m.parse.PARSED? then PARSED else current.parse,
        hash := m.hash,
        time := if m.time.Some? then m.time else current.time,
        count := current.count + 1)
  }

  /** Receiving one later message with nothing else going on. */
  function Receive(d: Dispatch, m: Message): Dispatch {
    if m.hash in d.seen then d else Write(d, d, m)
  }

  function After(d: Dispatch, ms: seq<Message>): Dispatch {
    if ms == [] then d else Receive(After(d, ms[..|ms| - 1]), ms[|ms| - 1])
  }

  /** The dispatch once the messages arrived in this order. */
  function Final(ms: seq<Message>): Dispatch
    requires ms != []
  {
    After(Create(ms[0]), ms[1..])
  }

  /** Some field of the call reads differently. */
  ghost predicate Differs(a: Content, b: Content) {
    exists f :: Get(a, f) != Get(b, f)
  }

  /** What receiving a new message records, told by its time and by what became of the call: history
      exactly when both times are known and the message's is the earlier, and then nothing of the call
      changes; otherwise a change exactly when some field differs. The message counts as seen, and what
      was recorded before stays. */
  lemma RecordedExactly(d: Dispatch, m: Message)
    requires m.hash !in d.seen
    ensures var d' := Receive(d, m);
      && d'.seen == d.seen + {m.hash}
      && (if m.time.Some? && d.time.Some? && m.time.value < d.time.value then
            d' == d.(updates := d.updates[m.hash := History], seen := d'.seen)
          else if Differs(d.content, d'.content) then
            d'.updates == d.updates[m.hash := Recorded] && d'.count == d.count + 1 && d'.hash == m.hash
          else
            d'.updates == d.updates[m.hash := Unchanged] && d'.count == d.count + 1 && d'.hash == m.hash)
  {
    var d' := Receive(d, m);
    if !Older(d, m) {
      if f :| Changes(d, m, f) {
        assert Get(d.content, f) != Get(d'.content, f);
      }
      if f :| Get(d.content, f) != Get(d'.content, f) {
        assert Changes(d, m, f);
      }
    }
  }

  // ---- Messages handled at the same time

  const MAX_WRITE_ATTEMPTS: nat := 3

  /** One invocation working on a message: it reads the dispatch, then writes against what it read,
      and starts over when another write came between. */
  datatype Worker =
    | Reading(message: Message, attempt: nat)
    | Writing(message: Message, attempt: nat, read: Dispatch)
    | Accepted(message: Message)
    | Duplicate(message: Message)
    | GaveUp(message: Message)

  /** `accepted` is the history of the messages whose transaction went through. */
  datatype System = System(dispatch: Dispatch, workers: seq<Worker>, accepted: seq<Message>)

  datatype Step = Arrive(message: Message) | Read(i: nat) | Commit(i: nat) | Fail(i: nat)

  predicate CanStep(s: System, step: Step) {
    match step
    case Arrive(_) => true
    case Read(i) => i < |s.workers| && s.workers[i].Reading?
    case Commit(i) => i < |s.workers| && s.workers[i].Writing?
    case Fail(i) => i < |s.workers|
  }

  /** The conditions of the transaction on the dispatch row. */
  predicate RowCondition(current: Dispatch, read: Dispatch, m: Message) {
    && current.count == read.count
    && (m.time.Some? && current.time.Some? ==> current.time.value <= m.time.value)
  }

  function Next(s: System, step: Step): System
    requires CanStep(s, step)
  {
    match step
    case Arrive(m) => s.(workers := s.workers + [Reading(m, 0)])
    case Fail(i) => s.(workers := s.workers[i := GaveUp(s.workers[i].message)])
    case Read(i) =>
      var Reading(m, attempt) := s.workers[i];
      s.(workers := s.workers[i :=
        if s.dispatch.hash == m.hash then Duplicate(m) else Writing(m, attempt, s.dispatch)])
    case Commit(i) =>
      var Writing(m, attempt, read) := s.workers[i];
      if m.hash in s.dispatch.updates || m.hash in s.dispatch.seen then
        s.(workers := s.workers[i := Duplicate(m)])
      else if !Older(read, m) && !RowCondition(s.dispatch, read, m) then
        s.(workers := s.workers[i :=
          if attempt + 1 < MAX_WRITE_ATTEMPTS then Reading(m, attempt + 1) else GaveUp(m)])
      else
        System(Write(s.dispatch, read, m), s.workers[i := Accepted(m)], s.accepted + [m])
  }

  ghost predicate Run(s0: System, steps: seq<Step>, s: System)
    decreases |steps|
  {
    if steps == [] then s == s0
    else CanStep(s0, steps[0]) && Run(Next(s0, steps[0]), steps[1..], s)
  }

  /** What a worker read is what is there now, unless the revision has moved on since; and the
      applied time never goes back. */
  predicate ReadEarlier(read: Dispatch, d: Dispatch) {
    && read.count <= d.count
    && (read.count == d.count ==>
          read.content == d.content && read.parse == d.parse && read.hash == d.hash && read.time == d.time)
    && (read.time.Some? ==> d.time.Some? && read.time.value <= d.time.value)
  }

  predicate Inv(s: System, first: Message) {
    && s.dispatch == After(Create(first), s.accepted)
    && forall w :: w in s.workers && w.Writing? ==> ReadEarlier(w.read, s.dispatch)
  }

  lemma WrittenAsReceived(current: Dispatch, read: Dispatch, m: Message)
    requires ReadEarlier(read, current) && m.hash !in current.seen
    requires Older(read, m) || RowCondition(current, read, m)
    ensures Write(current, read, m) == Receive(current, m)
    ensures ReadEarlier(current, Write(current, read, m))
  {
    if Older(read, m) {
      assert Older(current, m);
    } else {
      assert forall f :: Changes(read, m, f) <==> Changes(current, m, f);
      assert ChangesAny(read, m) <==> ChangesAny(current, m);
    }
  }

  lemma StepKeepsInv(s: System, step: Step, first: Message)
    requires Inv(s, first) && CanStep(s, step)
    ensures Inv(Next(s, step), first)
  {
    var s' := Next(s, step);
    if step.Commit? && s'.accepted != s.accepted {
      var w := s.workers[step.i];
      assert w in s.workers;
      WrittenAsReceived(s.dispatch, w.read, w.message);
      assert s'.accepted[..|s.accepted|] == s.accepted;
    }
    forall w | w in s'.workers && w.Writing? ensures ReadEarlier(w.read, s'.dispatch) {
      if w in s.workers {
        assert ReadEarlier(w.read, s.dispatch);
      }
    }
  }

  lemma {:induction false} RunKeepsInv(s0: System, steps: seq<Step>, s: System, first: Message)
    requires Inv(s0, first) && Run(s0, steps, s)
    ensures Inv(s, first)
    decreases |steps|
  {
    if steps != [] {
      StepKeepsInv(s0, steps[0], first);
      RunKeepsInv(Next(s0, steps[0]), steps[1..], s, first);
    }
  }

  /** However invocations interleave, the dispatch is what receiving the accepted messages one after
      another would have made it. */
  lemma ConcurrentWritesAreSerial(first: Message, steps: seq<Step>, s: System)
    requires Run(System(Create(first), [], []), steps, s)
    ensures s.dispatch == Final([first] + s.accepted)
  {
    RunKeepsInv(System(Create(first), [], []), steps, s, first);
    assert ([first] + s.accepted)[1..] == s.accepted;
  }

  /** In every concurrent run a commit that goes through records its message as receiving it by itself
      would: what it changed is told by the dispatch just before and just after. */
  lemma CommitRecords(first: Message, steps: seq<Step>, s: System, i: nat)
    requires Run(System(Create(first), [], []), steps, s) && CanStep(s, Commit(i))
    requires Next(s, Commit(i)).accepted != s.accepted
    ensures var m, d, d' := s.workers[i].message, s.dispatch, Next(s, Commit(i)).dispatch;
      && Next(s, Commit(i)).accepted == s.accepted + [m] && m.hash !in d.seen && d'.seen == d.seen + {m.hash}
      && d'.updates == d.updates[m.hash :=
           if m.time.Some? && d.time.Some? && m.time.value < d.time.value then History
           else if Differs(d.content, d'.content) then Recorded
           else Unchanged]
  {
    RunKeepsInv(System(Create(first), [], []), steps, s, first);
    var w := s.workers[i];
    assert w in s.workers;
    WrittenAsReceived(s.dispatch, w.read, w.message);
    RecordedExactly(s.dispatch, w.message);
  }

  /** What becomes of an attempt to write, in every run: a text seen before is a duplicate; a message older
      than the dispatch it was compared with, or one that nothing was applied ahead of, is accepted; any
      other starts over, and gives up after three attempts. Only the accepted one changes the dispatch. */
  lemma CommitDecides(first: Message, steps: seq<Step>, s: System, i: nat)
    requires Run(System(Create(first), [], []), steps, s) && CanStep(s, Commit(i))
    ensures var Writing(m, attempt, read) := s.workers[i]; var s' := Next(s, Commit(i));
      var older := m.time.Some? && read.time.Some? && m.time.value < read.time.value;
      if m.hash in s.dispatch.seen then
        s' == s.(workers := s.workers[i := Duplicate(m)])
      else if older || s.dispatch.count == read.count then
        s' == System(Receive(s.dispatch, m), s.workers[i := Accepted(m)], s.accepted + [m])
      else
        s' == s.(workers := s.workers[i := if attempt < 2 then Reading(m, attempt + 1) else GaveUp(m)])
  {
    RunKeepsInv(System(Create(first), [], []), steps, s, first);
    var w := s.workers[i];
    assert w in s.workers;
    UpdatesWereSeen(first, s.accepted);
    if w.message.hash !in s.dispatch.seen && (Older(w.read, w.message) || s.dispatch.count == w.read.count) {
      WrittenAsReceived(s.dispatch, w.read, w.message);
    }
  }

  lemma {:induction false} UpdatesWereSeen(first: Message, ms: seq<Message>)
    ensures var d := After(Create(first), ms);
      (forall h :: h in d.updates ==> h in d.seen) && d.hash in d.seen
    decreases |ms|
  {
    if ms != [] {
      UpdatesWereSeen(first, ms[..|ms| - 1]);
    }
  }

  /** An invocation that nothing comes between accepts its message, unless its text was seen before:
      from every reachable state the dispatch is then as receiving the message leaves it. */
  lemma LoneInvocationAccepts(first: Message, past: seq<Step>, s: System, m: Message) returns (end: System)
    requires Run(System(Create(first), [], []), past, s)
    ensures var i := |s.workers|;
      if m.hash == s.dispatch.hash then
        Run(s, [Arrive(m), Read(i)], end) && end.workers == s.workers + [Duplicate(m)]
      else
        && Run(s, [Arrive(m), Read(i), Commit(i)], end)
        && end.workers == s.workers + [if m.hash in s.dispatch.seen then Duplicate(m) else Accepted(m)]
    ensures end.dispatch == Receive(s.dispatch, m)
    ensures end.accepted == if m.hash in s.dispatch.seen then s.accepted else s.accepted + [m]
  {
    RunKeepsInv(System(Create(first), [], []), past, s, first);
    UpdatesWereSeen(first, s.accepted);
    var i := |s.workers|;
    var s1 := Next(s, Arrive(m));
    var s2 := Next(s1, Read(i));
    if m.hash == s.dispatch.hash {
      end := s2;
      assert [Arrive(m), Read(i)][1..] == [Read(i)] && [Read(i)][1..] == [];
      assert Run(s2, [], end) && Run(s1, [Read(i)], end);
    } else {
      end := Next(s2, Commit(i));
      assert [Arrive(m), Read(i), Commit(i)][1..] == [Read(i), Commit(i)];
      assert [Read(i), Commit(i)][1..] == [Commit(i)] && [Commit(i)][1..] == [];
      assert Run(end, [], end) && Run(s2, [Commit(i)], end) && Run(s1, [Read(i), Commit(i)], end);
    }
  }

  // ---- The latest message wins

  /** Messages about one incident, told apart by their text and by their resolved times. */
  predicate Ordered(ms: set<Message>) {
    && (forall m :: m in ms ==> m.time.Some? && (m.parse.PARSED? ==> m.content.incidentType != ""))
    && (forall m, n :: m in ms && n in ms && m != n ==> m.hash != n.hash && m.time != n.time)
  }

  predicate IsLatest(ms: set<Message>, latest: Message) {
    && latest in ms && latest.time.Some?
    && forall m :: m in ms && m != latest ==> m.time.Some? && m.time.value < latest.time.value
  }

  predicate Carries(m: Message, f: Field) {
    && Get(m.content, f) != ""
    && (if m.parse.RAW? then f.Narrative? else f.IncidentType? ==> m.typeCarried)
  }

  function Elements(ms: seq<Message>): set<Message> {
    set m | m in ms
  }

  function Hashes(ms: set<Message>): set<string> {
    set m | m in ms :: m.hash
  }

  /** What the arrivals so far say about the dispatch: the latest of them was applied last, or
      created it. */
  predicate Follows(d: Dispatch, ms: set<Message>, top: Message) {
    && d.seen == Hashes(ms)
    && IsLatest(ms, top) && d.time == top.time
    && (forall f :: Carries(top, f) ==> Get(d.content, f) == Get(top.content, f))
    && (top.parse.PARSED? ==> d.parse.PARSED?)
  }

  function Later(a: Message, b: Message): Message
    requires a.time.Some? && b.time.Some?
  {
    if a.time.value < b.time.value then b else a
  }

  lemma DuplicateFollows(d: Dispatch, ms: set<Message>, top: Message, m: Message)
    requires Follows(d, ms, top) && Ordered(ms + {m}) && m.hash in d.seen
    ensures Follows(Receive(d, m), ms + {m}, Later(top, m))
  {
    var n :| n in ms && n.hash == m.hash;
    assert n in ms + {m} && m in ms + {m};
    assert ms + {m} == ms;
  }

  lemma NewFollows(d: Dispatch, ms: set<Message>, top: Message, m: Message)
    requires Follows(d, ms, top) && Ordered(ms + {m}) && m.hash !in d.seen
    ensures Follows(Receive(d, m), ms + {m}, Later(top, m))
  {
    assert m !in ms;
    assert m in ms + {m} && top in ms + {m};
    assert Hashes(ms + {m}) == Hashes(ms) + {m.hash};
    var d' := Receive(d, m);
    if Older(d, m) {
      assert Later(top, m) == top;
    } else {
      assert Later(top, m) == m;
      forall f | Carries(m, f) ensures Get(d'.content, f) == Get(m.content, f) {
        assert Candidate(d.parse, m, f);
      }
    }
  }

  lemma {:induction false} FinalFollows(ms: seq<Message>) returns (top: Message)
    requires ms != [] && Ordered(Elements(ms))
    ensures Follows(Final(ms), Elements(ms), top)
    decreases |ms|
  {
    if |ms| == 1 {
      top := ms[0];
      assert ms == [top] && Elements(ms) == {top};
    } else {
      var init, last := ms[..|ms| - 1], ms[|ms| - 1];
      assert ms == init + [last];
      assert forall m :: m in Elements(init) ==> m in Elements(ms);
      var before := FinalFollows(init);
      assert ms[1..][..|ms| - 2] == init[1..];
      assert Elements(ms) == Elements(init) + {last};
      if last.hash in Final(init).seen {
        DuplicateFollows(Final(init), Elements(init), before, last);
      } else {
        NewFollows(Final(init), Elements(init), before, last);
      }
      top := Later(before, last);
    }
  }

  /** Every field the latest message carries ends as that message says, whatever the order in which
      the messages arrived and however often each of them did. */
  lemma LatestWins(ms: seq<Message>, latest: Message, f: Field)
    requires ms != [] && Ordered(Elements(ms)) && IsLatest(Elements(ms), latest) && Carries(latest, f)
    ensures Get(Final(ms).content, f) == Get(latest.content, f)
  {
    var top := FinalFollows(ms);
    assert top in Elements(ms) && latest in Elements(ms);
    assert top == latest;
  }

  /** The same for messages handled at the same time, by invocations that may fail at any point. */
  lemma LatestAcceptedWins(first: Message, steps: seq<Step>, s: System, latest: Message, f: Field)
    requires Run(System(Create(first), [], []), steps, s)
    requires var all := Elements([first] + s.accepted); Ordered(all) && IsLatest(all, latest)
    requires Carries(latest, f)
    ensures Get(s.dispatch.content, f) == Get(latest.content, f)
  {
    ConcurrentWritesAreSerial(first, steps, s);
    LatestWins([first] + s.accepted, latest, f);
  }

  // ---- When the order does not matter

  /** The field ends the same whatever the order the messages arrived in. */
  ghost predicate OrderIndependent(ms: set<Message>, f: Field) {
    forall a: seq<Message>, b: seq<Message> ::
      Elements(a) == ms && Elements(b) == ms && a != [] && b != []
      ==> Get(Final(a).content, f) == Get(Final(b).content, f)
  }

  /** What can be read off the messages themselves. */
  predicate Settled(ms: set<Message>, latest: Message, f: Field) {
    || Carries(latest, f)
    || (forall m :: m in ms ==> Get(m.content, f) == Get(latest.content, f))
    || (f.IncidentType? && latest.parse.PARSED?
        && forall m :: m in ms && m.parse.PARSED? ==> m.content.incidentType == latest.content.incidentType)
  }

  /** When all messages agree on a field, so does the dispatch. */
  lemma {:induction false} FinalAgrees(ms: seq<Message>, f: Field, value: string)
    requires ms != [] && forall m :: m in ms ==> Get(m.content, f) == value
    ensures Get(Final(ms).content, f) == value
    decreases |ms|
  {
    if |ms| > 1 {
      var init := ms[..|ms| - 1];
      assert ms[1..][..|ms| - 2] == init[1..];
      FinalAgrees(init, f, value);
      assert ms[|ms| - 1] in ms;
    }
  }

  /** A dispatch with a parsed message behind it has the type of one of them. */
  lemma {:induction false} FinalType(ms: seq<Message>, value: string)
    requires ms != []
    requires forall m :: m in ms && m.parse.PARSED? ==> m.content.incidentType == value && value != ""
    ensures Final(ms).parse.PARSED? ==> Final(ms).content.incidentType == value
    decreases |ms|
  {
    if |ms| > 1 {
      var init, last := ms[..|ms| - 1], ms[|ms| - 1];
      assert ms[1..][..|ms| - 2] == init[1..];
      assert last in ms;
      FinalType(init, value);
      var d := Final(init);
      assert Final(ms) == Receive(d, last);
      if last.hash !in d.seen && !Older(d, last) && last.parse.PARSED? && d.parse.RAW? {
        assert Candidate(d.parse, last, IncidentType);
      }
    }
  }

  lemma SettledEnds(ms: seq<Message>, latest: Message, f: Field)
    requires ms != [] && Ordered(Elements(ms)) && IsLatest(Elements(ms), latest)
    requires Settled(Elements(ms), latest, f)
    ensures Get(Final(ms).content, f) == Get(latest.content, f)
  {
    if Carries(latest, f) {
      LatestWins(ms, latest, f);
    } else if forall m :: m in Elements(ms) ==> Get(m.content, f) == Get(latest.content, f) {
      FinalAgrees(ms, f, Get(latest.content, f));
    } else {
      var top := FinalFollows(ms);
      assert top in Elements(ms) && top == latest;
      FinalType(ms, latest.content.incidentType);
    }
  }

  /** Once the latest message is in, the rest are history or duplicates. */
  lemma {:induction false} RestChangesNothing(d: Dispatch, rest: seq<Message>)
    requires d.time.Some? && forall m :: m in rest ==> m.time.Some? && (m.hash in d.seen || m.time.value < d.time.value)
    ensures After(d, rest).content == d.content && After(d, rest).time == d.time && d.seen <= After(d, rest).seen
    decreases |rest|
  {
    if rest != [] {
      assert rest[|rest| - 1] in rest;
      RestChangesNothing(d, rest[..|rest| - 1]);
    }
  }

  lemma {:induction false} Listed(ms: set<Message>) returns (list: seq<Message>)
    ensures Elements(list) == ms
    decreases |ms|
  {
    if ms == {} {
      list := [];
    } else {
      var m :| m in ms;
      var rest := Listed(ms - {m});
      list := [m] + rest;
      forall n ensures n in list <==> n in ms {
        assert n in rest <==> n in Elements(rest);
      }
    }
  }

  lemma {:induction false} AfterSplit(d: Dispatch, a: seq<Message>, b: seq<Message>)
    ensures After(d, a + b) == After(After(d, a), b)
    decreases |b|
  {
    if b == [] {
      assert a + b == a;
    } else {
      assert (a + b)[..|a + b| - 1] == a + b[..|b| - 1];
      AfterSplit(d, a, b[..|b| - 1]);
    }
  }

  /** The latest message first, then the others. */
  lemma LatestFirst(ms: set<Message>, latest: Message) returns (order: seq<Message>)
    requires Ordered(ms) && IsLatest(ms, latest)
    ensures order != [] && Elements(order) == ms && Final(order).content == latest.content
  {
    var rest := Listed(ms - {latest});
    order := [latest] + rest;
    assert order[1..] == rest;
    assert Elements(order) == Elements(rest) + {latest};
    forall m | m in rest ensures m in ms && m != latest { assert m in Elements(rest); }
    RestChangesNothing(Create(latest), rest);
  }

  /** An older message first, then the latest, then the others. */
  lemma LatestSecond(ms: set<Message>, latest: Message, m: Message) returns (order: seq<Message>)
    requires Ordered(ms) && IsLatest(ms, latest) && m in ms && m != latest
    ensures order != [] && Elements(order) == ms
    ensures Final(order).content == Written(m.content, Create(m), latest)
  {
    var rest := Listed(ms - {latest, m});
    order := [m, latest] + rest;
    assert order[1..] == [latest] + rest;
    assert Elements(order) == Elements(rest) + {latest, m};
    var d := Receive(Create(m), latest);
    assert [latest][..0] == [];
    assert After(Create(m), []) == Create(m);
    assert After(Create(m), [latest]) == d;
    AfterSplit(Create(m), [latest], rest);
    forall n | n in rest ensures n in ms && n != latest { assert n in Elements(rest); }
    RestChangesNothing(d, rest);
  }

  /** A field's final value depends on the order of arrival unless the latest message carries it, or
      all messages agree on it, or it is the type, the latest message is parsed, and all parsed
      messages agree on it; in those cases it is what the latest message says. */
  lemma OrderIndependenceIsExact(ms: set<Message>, latest: Message, f: Field)
    requires Ordered(ms) && IsLatest(ms, latest)
    ensures OrderIndependent(ms, f) <==> Settled(ms, latest, f)
  {
    if Settled(ms, latest, f) {
      forall a: seq<Message>, b: seq<Message> | Elements(a) == ms && Elements(b) == ms && a != [] && b != []
        ensures Get(Final(a).content, f) == Get(Final(b).content, f)
      {
        SettledEnds(a, latest, f);
        SettledEnds(b, latest, f);
      }
    } else {
      var m :| m in ms && Get(m.content, f) != Get(latest.content, f)
        && (f.IncidentType? && latest.parse.PARSED? ==> m.parse.PARSED?);
      var a := LatestFirst(ms, latest);
      var b := LatestSecond(ms, latest, m);
      assert !Changes(Create(m), latest, f);
      assert Get(Final(b).content, f) == Get(m.content, f);
    }
  }
}
