/** One message group of a channel's FIFO queue: the pages of one dispatch on one channel.

    A receive takes up to `batch` messages from the front, and only while none of the group is in
    flight; messages already received three times are dead-lettered instead. When the worker is
    done, the messages it did not fail are deleted and the rest become visible again, in place,
    once the visibility timeout has run out. */
module PagingQueue {

  const MAX_RECEIVE_COUNT: nat := 3
  const DEFAULT_WORKER_TIMEOUT_SECONDS: nat := 15
  const OLDEST_MESSAGE_ALARM_SECONDS: nat := 120

  /** The queue's visibility timeout for a worker timeout. */
  function Visibility(workerTimeout: nat): nat {
    workerTimeout * 2
  }

  datatype Page = Page(dispatchId: string, toneSequence: nat, memberId: string, channel: string)

  datatype Message = Message(page: Page, receives: nat)

  datatype Fate = Acknowledged | DeadLettered

  datatype Settled = Settled(message: Message, fate: Fate)

  /** `published` and `settled` are histories, oldest first. */
  datatype Group = Group(
    published: seq<Page>,
    waiting: seq<Message>,
    inFlight: seq<Message>,
    settled: seq<Settled>)

  const EMPTY_GROUP := Group([], [], [], [])

  function Min(a: nat, b: nat): nat {
    if a < b then a else b
  }

  predicate Exhausted(m: Message) {
    m.receives >= MAX_RECEIVE_COUNT
  }

  function Live(ms: seq<Message>): seq<Message> {
    if ms == [] then []
    else if Exhausted(ms[0]) then Live(ms[1..])
    else [ms[0]] + Live(ms[1..])
  }

  function Dead(ms: seq<Message>): seq<Settled> {
    if ms == [] then []
    else if Exhausted(ms[0]) then [Settled(ms[0], DeadLettered)] + Dead(ms[1..])
    else Dead(ms[1..])
  }

  function Received(ms: seq<Message>): seq<Message> {
    if ms == [] then [] else [Message(ms[0].page, ms[0].receives + 1)] + Received(ms[1..])
  }

  function Send(g: Group, page: Page): Group {
    g.(published := g.published + [page], waiting := g.waiting + [Message(page, 0)])
  }

  function Receive(g: Group, batch: nat): Group
    requires g.inFlight == []
  {
    var live := Live(g.waiting);
    var n := Min(batch, |live|);
    g.(waiting := live[n..], inFlight := Received(live[..n]), settled := g.settled + Dead(g.waiting))
  }

  function Kept(ms: seq<Message>, acked: set<Page>): seq<Message> {
    if ms == [] then []
    else if ms[0].page in acked then Kept(ms[1..], acked)
    else [ms[0]] + Kept(ms[1..], acked)
  }

  function AckedOf(ms: seq<Message>, acked: set<Page>): seq<Settled> {
    if ms == [] then []
    else if ms[0].page in acked then [Settled(ms[0], Acknowledged)] + AckedOf(ms[1..], acked)
    else AckedOf(ms[1..], acked)
  }

  /** The worker's batch ends: `acked` names the pages it did not report as failed. */
  function Settle(g: Group, acked: set<Page>): Group {
    g.(waiting := Kept(g.inFlight, acked) + g.waiting,
       inFlight := [],
       settled := g.settled + AckedOf(g.inFlight, acked))
  }

  // ---- Conservation: every published page is in exactly one place

  function MessagePages(ms: seq<Message>): multiset<Page> {
    if ms == [] then multiset{} else multiset{ms[0].page} + MessagePages(ms[1..])
  }

  function SettledPages(ss: seq<Settled>): multiset<Page> {
    if ss == [] then multiset{} else multiset{ss[0].message.page} + SettledPages(ss[1..])
  }

  lemma {:induction false} MessagePagesSplit(a: seq<Message>, b: seq<Message>)
    ensures MessagePages(a + b) == MessagePages(a) + MessagePages(b)
  {
    if a == [] {
      assert a + b == b;
    } else {
      assert (a + b)[1..] == a[1..] + b;
      MessagePagesSplit(a[1..], b);
    }
  }

  lemma {:induction false} SettledPagesSplit(a: seq<Settled>, b: seq<Settled>)
    ensures SettledPages(a + b) == SettledPages(a) + SettledPages(b)
  {
    if a == [] {
      assert a + b == b;
    } else {
      assert (a + b)[1..] == a[1..] + b;
      SettledPagesSplit(a[1..], b);
    }
  }

  lemma {:induction false} LiveDeadPages(ms: seq<Message>)
    ensures MessagePages(Live(ms)) + SettledPages(Dead(ms)) == MessagePages(ms)
  {
    if ms != [] {
      LiveDeadPages(ms[1..]);
    }
  }

  lemma {:induction false} KeptAckedPages(ms: seq<Message>, acked: set<Page>)
    ensures MessagePages(Kept(ms, acked)) + SettledPages(AckedOf(ms, acked)) == MessagePages(ms)
  {
    if ms != [] {
      var kept, ended := Kept(ms[1..], acked), AckedOf(ms[1..], acked);
      KeptAckedPages(ms[1..], acked);
      if ms[0].page in acked {
        assert ([Settled(ms[0], Acknowledged)] + ended)[1..] == ended;
      } else {
        assert ([ms[0]] + kept)[1..] == kept;
      }
    }
  }

  lemma {:induction false} ReceivedPages(ms: seq<Message>)
    ensures MessagePages(Received(ms)) == MessagePages(ms)
  {
    if ms != [] {
      ReceivedPages(ms[1..]);
    }
  }

  predicate Conserved(g: Group) {
    multiset(g.published) == MessagePages(g.waiting) + MessagePages(g.inFlight) + SettledPages(g.settled)
  }

  lemma SendConserves(g: Group, page: Page)
    requires Conserved(g)
    ensures Conserved(Send(g, page))
  {
    MessagePagesSplit(g.waiting, [Message(page, 0)]);
  }

  lemma ReceivedFrontPages(live: seq<Message>, n: nat)
    requires n <= |live|
    ensures MessagePages(live[n..]) + MessagePages(Received(live[..n])) == MessagePages(live)
  {
    assert live == live[..n] + live[n..];
    MessagePagesSplit(live[..n], live[n..]);
    ReceivedPages(live[..n]);
  }

  lemma BagsMove(
    all: multiset<Page>, waiting: multiset<Page>, settled: multiset<Page>, live: multiset<Page>, dead: multiset<Page>)
    requires all == waiting + multiset{} + settled && live + dead == waiting
    ensures all == live + (settled + dead)
  {
  }

  lemma ReceiveConserves(g: Group, batch: nat)
    requires Conserved(g) && g.inFlight == []
    ensures Conserved(Receive(g, batch))
  {
    var live, dead := Live(g.waiting), Dead(g.waiting);
    ReceivedFrontPages(live, Min(batch, |live|));
    LiveDeadPages(g.waiting);
    SettledPagesSplit(g.settled, dead);
    BagsMove(multiset(g.published), MessagePages(g.waiting), SettledPages(g.settled), MessagePages(live), SettledPages(dead));
  }

  lemma SettleConserves(g: Group, acked: set<Page>)
    requires Conserved(g)
    ensures Conserved(Settle(g, acked))
  {
    KeptAckedPages(g.inFlight, acked);
    MessagePagesSplit(Kept(g.inFlight, acked), g.waiting);
    SettledPagesSplit(g.settled, AckedOf(g.inFlight, acked));
  }

  /** A page is dead-lettered only after three receives and deleted only after one. */
  predicate Counted(g: Group) {
    && (forall m :: m in g.waiting ==> m.receives <= MAX_RECEIVE_COUNT)
    && (forall m :: m in g.inFlight ==> 1 <= m.receives <= MAX_RECEIVE_COUNT)
    && (forall s :: s in g.settled ==>
          if s.fate == DeadLettered then s.message.receives == MAX_RECEIVE_COUNT
          else 1 <= s.message.receives <= MAX_RECEIVE_COUNT)
  }

  lemma {:induction false} LiveFrom(ms: seq<Message>)
    ensures forall m :: m in Live(ms) ==> m in ms && !Exhausted(m)
    ensures forall d :: d in Dead(ms) ==> d.fate == DeadLettered && d.message in ms && Exhausted(d.message)
    ensures |Live(ms)| <= |ms|
  {
    if ms != [] {
      LiveFrom(ms[1..]);
    }
  }

  lemma {:induction false} ReceivedFrom(ms: seq<Message>)
    ensures |Received(ms)| == |ms|
    ensures forall r :: r in Received(ms) ==> r.receives > 0 && Message(r.page, r.receives - 1) in ms
  {
    if ms != [] {
      ReceivedFrom(ms[1..]);
    }
  }

  lemma {:induction false} SettledFrom(ms: seq<Message>, acked: set<Page>)
    ensures |Kept(ms, acked)| <= |ms|
    ensures forall m :: m in Kept(ms, acked) ==> m in ms && m.page !in acked
    ensures forall s :: s in AckedOf(ms, acked) ==> s.fate == Acknowledged && s.message in ms
  {
    if ms != [] {
      SettledFrom(ms[1..], acked);
    }
  }

  lemma ReceiveCounts(g: Group, batch: nat)
    requires Counted(g) && g.inFlight == []
    ensures Counted(Receive(g, batch))
  {
    var live := Live(g.waiting);
    var n := Min(batch, |live|);
    LiveFrom(g.waiting);
    ReceivedFrom(live[..n]);
    var g' := Receive(g, batch);
    forall m | m in g'.inFlight ensures 1 <= m.receives <= MAX_RECEIVE_COUNT {
      var before := Message(m.page, m.receives - 1);
      assert before in live[..n];
      assert before in live;
    }
    forall m | m in g'.waiting ensures m.receives <= MAX_RECEIVE_COUNT {
      assert m in live[n..];
      assert m in live;
    }
  }

  lemma SettleCounts(g: Group, acked: set<Page>)
    requires Counted(g)
    ensures Counted(Settle(g, acked))
  {
    SettledFrom(g.inFlight, acked);
  }

  // ---- Runs of one group

  datatype Step = Publish(page: Page) | Poll | WorkerEnds(acked: set<Page>)

  predicate CanStep(g: Group, step: Step) {
    match step
    case Publish(_) => true
    case Poll => g.inFlight == []
    case WorkerEnds(_) => g.inFlight != []
  }

  function Next(batch: nat, g: Group, step: Step): Group
    requires CanStep(g, step)
  {
    match step
    case Publish(page) => Send(g, page)
    case Poll => Receive(g, batch)
    case WorkerEnds(acked) => Settle(g, acked)
  }

  ghost predicate Run(batch: nat, g0: Group, steps: seq<Step>, g: Group)
    decreases |steps|
  {
    if steps == [] then g == g0
    else CanStep(g0, steps[0]) && Run(batch, Next(batch, g0, steps[0]), steps[1..], g)
  }

  lemma {:induction false} RunConserves(batch: nat, g0: Group, steps: seq<Step>, g: Group)
    requires Conserved(g0) && Counted(g0) && Run(batch, g0, steps, g)
    ensures Conserved(g) && Counted(g)
    decreases |steps|
  {
    if steps != [] {
      match steps[0] {
        case Publish(page) => SendConserves(g0, page);
        case Poll =>
          ReceiveConserves(g0, batch);
          ReceiveCounts(g0, batch);
        case WorkerEnds(acked) =>
          SettleConserves(g0, acked);
          SettleCounts(g0, acked);
      }
      RunConserves(batch, Next(batch, g0, steps[0]), steps[1..], g);
    }
  }

  /** Nothing is lost and nothing appears: in every run, every page is waiting, in flight,
      acknowledged or dead-lettered as many times as it was published, and is dead-lettered only
      after exactly three receives. */
  lemma PagesAreConserved(batch: nat, steps: seq<Step>, g: Group)
    requires Run(batch, EMPTY_GROUP, steps, g)
    ensures Conserved(g) && Counted(g)
  {
    RunConserves(batch, EMPTY_GROUP, steps, g);
  }

  // ---- Order

  function Pages(ms: seq<Message>): seq<Page> {
    if ms == [] then [] else [ms[0].page] + Pages(ms[1..])
  }

  function Ended(ss: seq<Settled>): seq<Page> {
    if ss == [] then [] else [ss[0].message.page] + Ended(ss[1..])
  }

  lemma {:induction false} PagesSplit(a: seq<Message>, b: seq<Message>)
    ensures Pages(a + b) == Pages(a) + Pages(b)
  {
    if a == [] {
      assert a + b == b;
    } else {
      assert (a + b)[1..] == a[1..] + b;
      PagesSplit(a[1..], b);
    }
  }

  lemma {:induction false} EndedSplit(a: seq<Settled>, b: seq<Settled>)
    ensures Ended(a + b) == Ended(a) + Ended(b)
  {
    if a == [] {
      assert a + b == b;
    } else {
      assert (a + b)[1..] == a[1..] + b;
      EndedSplit(a[1..], b);
    }
  }

  /** The messages no worker has seen yet. */
  function Untouched(ms: seq<Message>): seq<Message> {
    if ms == [] then []
    else if ms[0].receives == 0 then [ms[0]] + Untouched(ms[1..])
    else Untouched(ms[1..])
  }

  predicate AllUntouched(ms: seq<Message>) {
    forall m :: m in ms ==> m.receives == 0
  }

  lemma {:induction false} UntouchedSplit(a: seq<Message>, b: seq<Message>)
    ensures Untouched(a + b) == Untouched(a) + Untouched(b)
  {
    if a == [] {
      assert a + b == b;
    } else {
      assert (a + b)[1..] == a[1..] + b;
      UntouchedSplit(a[1..], b);
    }
  }

  lemma {:induction false} TouchedOnly(ms: seq<Message>)
    requires forall m :: m in ms ==> m.receives > 0
    ensures Untouched(ms) == []
  {
    if ms != [] {
      assert ms[0] in ms;
      TouchedOnly(ms[1..]);
    }
  }

  lemma {:induction false} LiveKeepsUntouched(ms: seq<Message>)
    ensures Untouched(Live(ms)) == Untouched(ms)
    ensures AllUntouched(ms) ==> Live(ms) == ms && Dead(ms) == []
  {
    if ms != [] {
      LiveKeepsUntouched(ms[1..]);
      assert forall m :: m in ms[1..] ==> m in ms;
      var rest := Live(ms[1..]);
      assert ([ms[0]] + rest)[1..] == rest;
    }
  }

  /** The pages no worker has seen yet are the latest published ones, in order. */
  ghost predicate FirstReceivedInOrder(g: Group) {
    exists n: nat :: n <= |g.published| && Pages(Untouched(g.waiting)) == g.published[n..]
  }

  lemma SuffixOfSuffix(published: seq<Page>, a: seq<Page>, b: seq<Page>, n: nat)
    requires n <= |published| && published[n..] == a + b
    ensures n + |a| <= |published| && published[n + |a|..] == b
  {
    assert published[n..][|a|..] == b;
  }

  lemma PublishKeepsFirstOrder(g: Group, page: Page)
    requires FirstReceivedInOrder(g)
    ensures FirstReceivedInOrder(Send(g, page))
  {
    var n: nat :| n <= |g.published| && Pages(Untouched(g.waiting)) == g.published[n..];
    var m := Message(page, 0);
    UntouchedSplit(g.waiting, [m]);
    assert Untouched([m]) == [m] && Pages([m]) == [page];
    PagesSplit(Untouched(g.waiting), [m]);
    assert (g.published + [page])[n..] == g.published[n..] + [page];
  }

  lemma UntouchedBehind(front: seq<Message>, back: seq<Message>, published: seq<Page>, n: nat) returns (later: nat)
    requires n <= |published| && Pages(Untouched(front + back)) == published[n..]
    ensures later <= |published| && Pages(Untouched(back)) == published[later..]
  {
    UntouchedSplit(front, back);
    PagesSplit(Untouched(front), Untouched(back));
    SuffixOfSuffix(published, Pages(Untouched(front)), Pages(Untouched(back)), n);
    later := n + |Pages(Untouched(front))|;
  }

  lemma PollKeepsFirstOrder(batch: nat, g: Group)
    requires FirstReceivedInOrder(g) && g.inFlight == []
    ensures FirstReceivedInOrder(Receive(g, batch))
  {
    var n: nat :| n <= |g.published| && Pages(Untouched(g.waiting)) == g.published[n..];
    var live := Live(g.waiting);
    LiveKeepsUntouched(g.waiting);
    var later := UntouchedAfter(live, Min(batch, |live|), g.published, n);
  }

  lemma UntouchedAfter(live: seq<Message>, k: nat, published: seq<Page>, n: nat) returns (later: nat)
    requires k <= |live| && n <= |published| && Pages(Untouched(live)) == published[n..]
    ensures later <= |published| && Pages(Untouched(live[k..])) == published[later..]
  {
    assert live == live[..k] + live[k..];
    later := UntouchedBehind(live[..k], live[k..], published, n);
  }

  lemma EndKeepsFirstOrder(g: Group, acked: set<Page>)
    requires Counted(g) && FirstReceivedInOrder(g)
    ensures FirstReceivedInOrder(Settle(g, acked))
  {
    var kept := Kept(g.inFlight, acked);
    SettledFrom(g.inFlight, acked);
    TouchedOnly(kept);
    UntouchedSplit(kept, g.waiting);
    assert Untouched(kept) + Untouched(g.waiting) == Untouched(g.waiting);
  }

  /** Pages first reach a worker in publish order, whatever the batch size. */
  lemma {:induction false} PagesStartInOrder(batch: nat, g0: Group, steps: seq<Step>, g: Group)
    requires Conserved(g0) && Counted(g0) && FirstReceivedInOrder(g0) && Run(batch, g0, steps, g)
    ensures FirstReceivedInOrder(g)
    decreases |steps|
  {
    if steps != [] {
      match steps[0] {
        case Publish(page) => PublishKeepsFirstOrder(g0, page);
        case Poll => PollKeepsFirstOrder(batch, g0);
        case WorkerEnds(acked) => EndKeepsFirstOrder(g0, acked);
      }
      RunConserves(batch, g0, steps[..1], Next(batch, g0, steps[0]));
      PagesStartInOrder(batch, Next(batch, g0, steps[0]), steps[1..], g);
    }
  }

  /** With one page in flight at a time, only the oldest page may have been received before. */
  ghost predicate OneAtATime(g: Group) {
    && g.published == Ended(g.settled) + Pages(g.inFlight) + Pages(g.waiting)
    && |g.inFlight| <= 1
    && (if g.inFlight == [] && g.waiting != [] then AllUntouched(g.waiting[1..]) else AllUntouched(g.waiting))
  }

  lemma HeadOnlyTouched(head: Message, rest: seq<Message>)
    requires AllUntouched(rest)
    ensures Exhausted(head) ==> Live([head] + rest) == rest && Dead([head] + rest) == [Settled(head, DeadLettered)]
    ensures !Exhausted(head) ==> Live([head] + rest) == [head] + rest && Dead([head] + rest) == []
  {
    assert ([head] + rest)[1..] == rest;
    LiveKeepsUntouched(rest);
  }

  lemma ReceivePastDeadHead(batch: nat, g: Group, head: Message, rest: seq<Message>)
    requires batch <= 1 && OneAtATime(g) && g.inFlight == []
    requires g.waiting == [head] + rest && AllUntouched(rest) && Exhausted(head)
    ensures OneAtATime(Receive(g, batch))
  {
    HeadOnlyTouched(head, rest);
    EndedSplit(g.settled, [Settled(head, DeadLettered)]);
    EndedOne(Settled(head, DeadLettered));
    OneFromUntouched(rest, batch);
    var received, left := Pages(Received(rest[..Min(batch, |rest|)])), Pages(rest[Min(batch, |rest|)..]);
    assert g.waiting[1..] == rest;
    assert Pages(g.waiting) == [head.page] + (received + left);
    Reassociate(Ended(g.settled), [head.page], received, left);
  }

  lemma Reassociate<T>(a: seq<T>, b: seq<T>, c: seq<T>, d: seq<T>)
    ensures a + [] + (b + (c + d)) == a + b + c + d
    ensures a + [] + (c + d) == a + c + d
  {
  }

  lemma ReceiveLiveHead(batch: nat, g: Group, head: Message, rest: seq<Message>)
    requires batch <= 1 && OneAtATime(g) && g.inFlight == []
    requires g.waiting == [head] + rest && AllUntouched(rest) && !Exhausted(head)
    ensures OneAtATime(Receive(g, batch))
  {
    HeadOnlyTouched(head, rest);
    OneFromHead(head, rest, batch);
    assert g.settled + [] == g.settled;
    Reassociate(Ended(g.settled), [], Pages(Received(g.waiting[..batch])), Pages(g.waiting[batch..]));
  }

  lemma ReceiveOneAtATime(batch: nat, g: Group)
    requires batch <= 1 && OneAtATime(g) && g.inFlight == []
    ensures OneAtATime(Receive(g, batch))
  {
    if g.waiting == [] {
      assert g.settled + [] == g.settled;
    } else if Exhausted(g.waiting[0]) {
      ReceivePastDeadHead(batch, g, g.waiting[0], g.waiting[1..]);
    } else {
      ReceiveLiveHead(batch, g, g.waiting[0], g.waiting[1..]);
    }
  }

  lemma EndedOne(s: Settled)
    ensures Ended([s]) == [s.message.page]
  {
    assert [s][1..] == [];
  }

  lemma OneFromHead(head: Message, rest: seq<Message>, batch: nat)
    requires batch <= 1 && AllUntouched(rest)
    ensures var ms := [head] + rest;
      && |Received(ms[..batch])| <= 1
      && Pages(Received(ms[..batch])) + Pages(ms[batch..]) == Pages(ms)
      && AllUntouched(ms[1..])
  {
    var ms := [head] + rest;
    assert ms[1..] == rest;
    if batch == 0 {
      assert ms[..0] == [] && ms[0..] == ms;
    } else {
      assert ms[..1] == [head] && [head][1..] == [];
      assert Received([head]) == [Message(head.page, head.receives + 1)];
      assert [Message(head.page, head.receives + 1)][1..] == [];
    }
  }

  lemma OneFromUntouched(ms: seq<Message>, batch: nat)
    requires batch <= 1 && AllUntouched(ms)
    ensures var n := Min(batch, |ms|);
      |Received(ms[..n])| <= 1 && Pages(Received(ms[..n])) + Pages(ms[n..]) == Pages(ms) && AllUntouched(ms[n..])
  {
    if batch == 0 || ms == [] {
      assert ms[..0] == [] && ms[0..] == ms;
    } else {
      assert ms[..1] == [ms[0]] && [ms[0]][1..] == [];
      assert Received(ms[..1]) == [Message(ms[0].page, 1)];
    }
  }

  lemma SettleOne(m: Message, acked: set<Page>)
    ensures m.page in acked ==> Kept([m], acked) == [] && AckedOf([m], acked) == [Settled(m, Acknowledged)]
    ensures m.page !in acked ==> Kept([m], acked) == [m] && AckedOf([m], acked) == []
  {
    assert [m][1..] == [];
  }

  lemma SettleOneAtATime(g: Group, acked: set<Page>)
    requires OneAtATime(g) && g.inFlight != []
    ensures OneAtATime(Settle(g, acked))
  {
    var m := g.inFlight[0];
    assert g.inFlight == [m] && Pages([m]) == [m.page];
    SettleOne(m, acked);
    if m.page in acked {
      EndedSplit(g.settled, [Settled(m, Acknowledged)]);
      EndedOne(Settled(m, Acknowledged));
      assert [] + g.waiting == g.waiting;
    } else {
      assert g.settled + [] == g.settled;
      assert ([m] + g.waiting)[1..] == g.waiting;
    }
  }

  lemma {:induction false} RunOneAtATime(batch: nat, g0: Group, steps: seq<Step>, g: Group)
    requires batch <= 1 && OneAtATime(g0) && Run(batch, g0, steps, g)
    ensures OneAtATime(g)
    decreases |steps|
  {
    if steps != [] {
      match steps[0] {
        case Publish(page) =>
          PagesSplit(g0.waiting, [Message(page, 0)]);
          assert g0.waiting == [] || (g0.waiting + [Message(page, 0)])[1..] == g0.waiting[1..] + [Message(page, 0)];
        case Poll => ReceiveOneAtATime(batch, g0);
        case WorkerEnds(acked) => SettleOneAtATime(g0, acked);
      }
      RunOneAtATime(batch, Next(batch, g0, steps[0]), steps[1..], g);
    }
  }

  /** Pages leave the group, acknowledged or dead-lettered, in the order they were published. */
  ghost predicate EndsInOrder(batch: nat) {
    forall steps, g :: Run(batch, EMPTY_GROUP, steps, g) ==> Ended(g.settled) <= g.published
  }

  lemma TwoReceived(batch: nat, first: Page, second: Page)
    requires batch >= 2
    ensures Receive(Group([first, second], [Message(first, 0), Message(second, 0)], [], []), batch)
         == Group([first, second], [], [Message(first, 1), Message(second, 1)], [])
  {
    var a, b := Message(first, 0), Message(second, 0);
    assert [b][1..] == [] && [a, b][1..] == [b];
    assert AllUntouched([a, b]);
    LiveKeepsUntouched([a, b]);
    assert [a, b][..2] == [a, b] && [a, b][2..] == [];
    assert Received([b]) == [Message(second, 1)];
  }

  lemma SecondAcknowledged(first: Page, second: Page)
    requires first != second
    ensures Settle(Group([first, second], [], [Message(first, 1), Message(second, 1)], []), {second})
         == Group([first, second], [Message(first, 1)], [], [Settled(Message(second, 1), Acknowledged)])
  {
    var a, b := Message(first, 1), Message(second, 1);
    assert [a, b][1..] == [b];
    SettleOne(b, {second});
    assert Kept([a, b], {second}) == [a] + [];
  }

  /** Two pages received together, of which the worker fails only the first. */
  lemma Overtaking(batch: nat, first: Page, second: Page) returns (steps: seq<Step>, g: Group)
    requires batch >= 2 && first != second
    ensures Run(batch, EMPTY_GROUP, steps, g)
    ensures g.published == [first, second] && Ended(g.settled) == [second]
  {
    var g2 := Send(Send(EMPTY_GROUP, first), second);
    assert g2 == Group([first, second], [Message(first, 0), Message(second, 0)], [], []);
    TwoReceived(batch, first, second);
    SecondAcknowledged(first, second);
    var g3 := Receive(g2, batch);
    g := Settle(g3, {second});
    EndedOne(Settled(Message(second, 1), Acknowledged));
    RunStep(batch, g3, WorkerEnds({second}), [], g);
    RunStep(batch, g2, Poll, [WorkerEnds({second})] + [], g);
    var later := [Poll] + ([WorkerEnds({second})] + []);
    RunStep(batch, Send(EMPTY_GROUP, first), Publish(second), later, g);
    RunStep(batch, EMPTY_GROUP, Publish(first), [Publish(second)] + later, g);
    steps := [Publish(first)] + ([Publish(second)] + later);
  }

  lemma RunStep(batch: nat, g: Group, step: Step, rest: seq<Step>, end: Group)
    requires CanStep(g, step) && Run(batch, Next(batch, g, step), rest, end)
    ensures Run(batch, g, [step] + rest, end)
  {
    assert ([step] + rest)[1..] == rest;
  }

  /** The order in which a group's pages end is their publish order exactly when the worker takes
      one page at a time; a receive of two or more lets a later page overtake a failing one. */
  lemma EndsInOrderIffOneAtATime(batch: nat)
    ensures EndsInOrder(batch) <==> batch <= 1
  {
    if batch <= 1 {
      forall steps, g | Run(batch, EMPTY_GROUP, steps, g) ensures Ended(g.settled) <= g.published {
        RunOneAtATime(batch, EMPTY_GROUP, steps, g);
      }
    } else {
      var steps, g := Overtaking(batch, Page("d", 1, "a", "sms"), Page("d", 1, "b", "sms"));
      assert Ended(g.settled)[0] != g.published[0];
    }
  }
}
