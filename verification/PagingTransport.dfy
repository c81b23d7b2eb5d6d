/** The paging transport: one FIFO topic, a subscription for each channel with its own dead-letter
    queue, and a FIFO queue behind each subscription, divided into one message group a dispatch. */
module PagingTransport {
  import opened PagingQueue
  import opened Delimited

  const CHANNELS := {"push", "sms", "voice"}
  const DEDUP_WINDOW_SECONDS := 300

  datatype Publication = Publication(page: Page, at: int)

  datatype GroupKey = GroupKey(channel: string, dispatchId: string)

  /** `accepted` is the history of publications the topic did not suppress. */
  datatype Transport = Transport(
    now: int,
    accepted: seq<Publication>,
    filtered: seq<Page>,
    undelivered: seq<Page>,
    groups: map<GroupKey, Group>)

  datatype Step =
    | Advance(seconds: nat)
    | Publish(page: Page, delivered: bool)
    | Work(key: GroupKey, step: PagingQueue.Step)

  /** The message deduplication id; its digest stands for it one to one. */
  function DedupId(page: Page): string {
    Join([page.dispatchId, Decimal(page.toneSequence), page.memberId, page.channel])
  }

  predicate PlainPage(page: Page) {
    Free(page.dispatchId) && Free(page.memberId) && Free(page.channel)
  }

  lemma DedupIdTellsPagesApart(p: Page, q: Page)
    requires PlainPage(p) && PlainPage(q)
    ensures DedupId(p) == DedupId(q) <==> p == q
  {
    var a := [p.dispatchId, Decimal(p.toneSequence), p.memberId, p.channel];
    var b := [q.dispatchId, Decimal(q.toneSequence), q.memberId, q.channel];
    JoinInjective(a, b);
    DecimalInjective(p.toneSequence, q.toneSequence);
    if a == b {
      assert a[0] == b[0] && a[1] == b[1] && a[2] == b[2] && a[3] == b[3];
    }
  }

  function KeyOf(page: Page): GroupKey {
    GroupKey(page.channel, page.dispatchId)
  }

  function GroupAt(t: Transport, key: GroupKey): Group {
    if key in t.groups then t.groups[key] else EMPTY_GROUP
  }

  predicate Suppresses(p: Publication, page: Page, now: int) {
    DedupId(p.page) == DedupId(page) && now < p.at + DEDUP_WINDOW_SECONDS
  }

  predicate Suppressed(t: Transport, page: Page) {
    exists p :: p in t.accepted && Suppresses(p, page, t.now)
  }

  /** The topic sends the page to the queue of its channel, if it has one. */
  function Route(t: Transport, page: Page, delivered: bool): Transport {
    if page.channel !in CHANNELS then t.(filtered := t.filtered + [page])
    else if !delivered then t.(undelivered := t.undelivered + [page])
    else t.(groups := t.groups[KeyOf(page) := Send(GroupAt(t, KeyOf(page)), page)])
  }

  function Accept(t: Transport, page: Page): Transport {
    t.(accepted := t.accepted + [Publication(page, t.now)])
  }

  predicate CanStep(t: Transport, step: Step) {
    match step
    case Advance(_) => true
    case Publish(_, _) => true
    case Work(key, work) => !work.Publish? && PagingQueue.CanStep(GroupAt(t, key), work)
  }

  function Next(batch: nat, t: Transport, step: Step): Transport
    requires CanStep(t, step)
  {
    match step
    case Advance(seconds) => t.(now := t.now + seconds)
    case Publish(page, delivered) =>
      if Suppressed(t, page) then t
      else Route(Accept(t, page), page, delivered)
    case Work(key, work) =>
      t.(groups := t.groups[key := PagingQueue.Next(batch, GroupAt(t, key), work)])
  }

  ghost predicate Run(batch: nat, t0: Transport, steps: seq<Step>, t: Transport)
    decreases |steps|
  {
    if steps == [] then t == t0
    else CanStep(t0, steps[0]) && Run(batch, Next(batch, t0, steps[0]), steps[1..], t)
  }

  predicate Start(t: Transport) {
    t.accepted == [] && t.filtered == [] && t.undelivered == [] && t.groups == map[]
  }

  // ---- Where a page is

  function AcceptedPages(ps: seq<Publication>): multiset<Page> {
    if ps == [] then multiset{} else multiset{ps[|ps| - 1].page} + AcceptedPages(ps[..|ps| - 1])
  }

  /** How often the page sits in one group, wherever in it. */
  function InGroup(g: Group, page: Page): nat {
    MessagePages(g.waiting)[page] + MessagePages(g.inFlight)[page] + SettledPages(g.settled)[page]
  }

  /** Every accepted publication of the page is in exactly one place: filtered out, on its
      channel's subscription dead-letter queue, or in the group of its own channel and dispatch,
      there waiting, in flight, acknowledged or dead-lettered. */
  ghost predicate Accounted(t: Transport, page: Page) {
    && AcceptedPages(t.accepted)[page]
       == multiset(t.filtered)[page] + multiset(t.undelivered)[page] + InGroup(GroupAt(t, KeyOf(page)), page)
    && (multiset(t.filtered)[page] > 0 ==> page.channel !in CHANNELS)
    && (multiset(t.undelivered)[page] > 0 ==> page.channel in CHANNELS)
    && (forall key :: InGroup(GroupAt(t, key), page) > 0 ==> key == KeyOf(page) && page.channel in CHANNELS)
  }

  ghost predicate Inv(t: Transport) {
    && (forall page :: Accounted(t, page))
    && (forall key :: Conserved(GroupAt(t, key)) && Counted(GroupAt(t, key)))
    && Spaced(t.accepted, t.now)
  }

  /** Accepted publications with one deduplication id are at least the window apart. */
  predicate Spaced(accepted: seq<Publication>, now: int) {
    && (forall i :: 0 <= i < |accepted| ==> accepted[i].at <= now)
    && (forall i, j :: 0 <= i < j < |accepted| && DedupId(accepted[i].page) == DedupId(accepted[j].page) ==>
          accepted[i].at + DEDUP_WINDOW_SECONDS <= accepted[j].at)
  }

  lemma InGroupIsPublished(g: Group, page: Page)
    requires Conserved(g)
    ensures InGroup(g, page) == multiset(g.published)[page]
  {
  }

  lemma WorkKeepsGroup(batch: nat, g: Group, step: PagingQueue.Step)
    requires Conserved(g) && Counted(g) && PagingQueue.CanStep(g, step)
    ensures var g' := PagingQueue.Next(batch, g, step); Conserved(g') && Counted(g')
    ensures !step.Publish? ==> PagingQueue.Next(batch, g, step).published == g.published
  {
    RunConserves(batch, g, [step], PagingQueue.Next(batch, g, step));
  }

  lemma AcceptCounts(t: Transport, page: Page, other: Page)
    ensures AcceptedPages(Accept(t, page).accepted)[other]
         == AcceptedPages(t.accepted)[other] + if other == page then 1 else 0
  {
    assert Accept(t, page).accepted[..|t.accepted|] == t.accepted;
  }

  lemma SendCounts(g: Group, page: Page, other: Page)
    requires Conserved(g)
    ensures InGroup(Send(g, page), other) == InGroup(g, other) + if other == page then 1 else 0
  {
    SendConserves(g, page);
    InGroupIsPublished(g, other);
    InGroupIsPublished(Send(g, page), other);
  }

  lemma AppendCounts(pages: seq<Page>, page: Page, other: Page)
    ensures multiset(pages + [page])[other] == multiset(pages)[other] + if other == page then 1 else 0
  {
  }

  /** One group changes: what that does to a page's account. */
  lemma GroupChangeAccounts(t: Transport, t': Transport, key: GroupKey, g: Group, other: Page, gained: nat)
    requires Accounted(t, other)
    requires t' == t.(accepted := t'.accepted, groups := t.groups[key := g])
    requires AcceptedPages(t'.accepted)[other] == AcceptedPages(t.accepted)[other] + gained
    requires InGroup(g, other) == InGroup(GroupAt(t, key), other) + gained
    requires gained > 0 ==> key == KeyOf(other) && other.channel in CHANNELS
    ensures Accounted(t', other)
  {
    forall k ensures GroupAt(t', k) == if k == key then g else GroupAt(t, k) {}
    if key != KeyOf(other) {
      assert InGroup(GroupAt(t, key), other) == 0 && gained == 0;
      assert GroupAt(t', KeyOf(other)) == GroupAt(t, KeyOf(other));
    }
    forall k | InGroup(GroupAt(t', k), other) > 0 ensures k == KeyOf(other) && other.channel in CHANNELS {
      if k != key {
        assert InGroup(GroupAt(t, k), other) > 0;
      } else if gained == 0 {
        assert InGroup(GroupAt(t, key), other) > 0;
      }
    }
  }

  lemma SendAccounts(t: Transport, page: Page, other: Page)
    requires Accounted(t, other) && page.channel in CHANNELS
    requires Conserved(GroupAt(t, KeyOf(page)))
    ensures Accounted(Route(Accept(t, page), page, true), other)
  {
    AcceptCounts(t, page, other);
    var g := GroupAt(t, KeyOf(page));
    SendCounts(g, page, other);
    var gained := if other == page then 1 else 0;
    GroupChangeAccounts(t, Route(Accept(t, page), page, true), KeyOf(page), Send(g, page), other, gained);
  }

  lemma FilterAccounts(t: Transport, page: Page, other: Page)
    requires Accounted(t, other) && page.channel !in CHANNELS
    ensures Accounted(Accept(t, page).(filtered := t.filtered + [page]), other)
  {
    AcceptCounts(t, page, other);
    AppendCounts(t.filtered, page, other);
    var t' := Accept(t, page).(filtered := t.filtered + [page]);
    forall key ensures GroupAt(t', key) == GroupAt(t, key) {}
  }

  lemma UndeliveredAccounts(t: Transport, page: Page, other: Page)
    requires Accounted(t, other) && page.channel in CHANNELS
    ensures Accounted(Accept(t, page).(undelivered := t.undelivered + [page]), other)
  {
    AcceptCounts(t, page, other);
    AppendCounts(t.undelivered, page, other);
    var t' := Accept(t, page).(undelivered := t.undelivered + [page]);
    forall key ensures GroupAt(t', key) == GroupAt(t, key) {}
  }

  lemma RouteAccounts(t: Transport, page: Page, delivered: bool, other: Page)
    requires Accounted(t, other)
    requires forall key :: Conserved(GroupAt(t, key))
    ensures Accounted(Route(Accept(t, page), page, delivered), other)
  {
    if page.channel !in CHANNELS {
      FilterAccounts(t, page, other);
    } else if delivered {
      SendAccounts(t, page, other);
    } else {
      UndeliveredAccounts(t, page, other);
    }
  }

  lemma AcceptKeepsSpacing(t: Transport, page: Page)
    requires Spaced(t.accepted, t.now) && !Suppressed(t, page)
    ensures Spaced(Accept(t, page).accepted, t.now)
  {
    forall i | 0 <= i < |t.accepted| ensures !Suppresses(t.accepted[i], page, t.now) {
      assert t.accepted[i] in t.accepted;
    }
  }

  lemma RouteKeepsGroups(t: Transport, page: Page, delivered: bool, key: GroupKey)
    requires Conserved(GroupAt(t, key)) && Counted(GroupAt(t, key))
    ensures var g := GroupAt(Route(Accept(t, page), page, delivered), key); Conserved(g) && Counted(g)
  {
    var g := GroupAt(t, key);
    SendConserves(g, page);
    assert GroupAt(Route(Accept(t, page), page, delivered), key)
        == if page.channel in CHANNELS && delivered && key == KeyOf(page) then Send(g, page) else g;
  }

  lemma PublishKeepsInv(t: Transport, page: Page, delivered: bool)
    requires Inv(t) && !Suppressed(t, page)
    ensures Inv(Route(Accept(t, page), page, delivered))
  {
    var t' := Route(Accept(t, page), page, delivered);
    forall other ensures Accounted(t', other) {
      RouteAccounts(t, page, delivered, other);
    }
    forall key ensures Conserved(GroupAt(t', key)) && Counted(GroupAt(t', key)) {
      RouteKeepsGroups(t, page, delivered, key);
    }
    AcceptKeepsSpacing(t, page);
    assert t'.accepted == Accept(t, page).accepted && t'.now == t.now;
  }

  lemma WorkKeepsInv(batch: nat, t: Transport, key: GroupKey, work: PagingQueue.Step)
    requires Inv(t) && CanStep(t, Work(key, work))
    ensures Inv(Next(batch, t, Work(key, work)))
  {
    var g := GroupAt(t, key);
    var g' := PagingQueue.Next(batch, g, work);
    var t' := Next(batch, t, Work(key, work));
    WorkKeepsGroup(batch, g, work);
    forall page ensures Accounted(t', page) {
      InGroupIsPublished(g, page);
      InGroupIsPublished(g', page);
      GroupChangeAccounts(t, t', key, g', page, 0);
    }
    forall k ensures GroupAt(t', k) == if k == key then g' else GroupAt(t, k) {}
  }

  lemma AdvanceKeepsInv(t: Transport, seconds: nat)
    requires Inv(t)
    ensures Inv(t.(now := t.now + seconds))
  {
    var t' := t.(now := t.now + seconds);
    forall key ensures GroupAt(t', key) == GroupAt(t, key) {}
    forall page ensures Accounted(t', page) {
      assert Accounted(t, page);
    }
  }

  lemma StepKeepsInv(batch: nat, t: Transport, step: Step)
    requires Inv(t) && CanStep(t, step)
    ensures Inv(Next(batch, t, step))
  {
    match step
    case Advance(seconds) => AdvanceKeepsInv(t, seconds);
    case Publish(page, delivered) =>
      if !Suppressed(t, page) {
        PublishKeepsInv(t, page, delivered);
      }
    case Work(key, work) => WorkKeepsInv(batch, t, key, work);
  }

  lemma {:induction false} RunKeepsInv(batch: nat, t0: Transport, steps: seq<Step>, t: Transport)
    requires Inv(t0) && Run(batch, t0, steps, t)
    ensures Inv(t)
    decreases |steps|
  {
    if steps != [] {
      StepKeepsInv(batch, t0, steps[0]);
      RunKeepsInv(batch, Next(batch, t0, steps[0]), steps[1..], t);
    }
  }

  /** In every run, whatever the workers do and whatever fails to reach its queue, every accepted
      publication of every page is in exactly one place: filtered out, when no worker serves its
      channel; else on the dead-letter queue of its subscription, or in the group of its own channel
      and dispatch and in no other. */
  lemma EveryPageIsAccountedFor(batch: nat, t0: Transport, steps: seq<Step>, t: Transport, page: Page)
    requires Start(t0) && Run(batch, t0, steps, t)
    ensures AcceptedPages(t.accepted)[page]
         == multiset(t.filtered)[page] + multiset(t.undelivered)[page]
            + InGroup(GroupAt(t, GroupKey(page.channel, page.dispatchId)), page)
    ensures forall key :: InGroup(GroupAt(t, key), page) > 0 ==>
      key.channel == page.channel && key.dispatchId == page.dispatchId
    ensures if page.channel == "push" || page.channel == "sms" || page.channel == "voice"
      then multiset(t.filtered)[page] == 0
      else multiset(t.filtered)[page] == AcceptedPages(t.accepted)[page]
  {
    RunKeepsInv(batch, t0, steps, t);
    AccountReads(t, page);
  }

  lemma AccountReads(t: Transport, page: Page)
    requires Accounted(t, page)
    ensures AcceptedPages(t.accepted)[page]
         == multiset(t.filtered)[page] + multiset(t.undelivered)[page]
            + InGroup(GroupAt(t, GroupKey(page.channel, page.dispatchId)), page)
    ensures forall key :: InGroup(GroupAt(t, key), page) > 0 ==>
      key.channel == page.channel && key.dispatchId == page.dispatchId
    ensures if page.channel == "push" || page.channel == "sms" || page.channel == "voice"
      then multiset(t.filtered)[page] == 0
      else multiset(t.filtered)[page] == AcceptedPages(t.accepted)[page]
  {
    Served(page.channel);
    assert page.channel !in CHANNELS ==> InGroup(GroupAt(t, KeyOf(page)), page) == 0;
  }

  lemma Served(channel: string)
    ensures channel in CHANNELS <==> channel == "push" || channel == "sms" || channel == "voice"
  {
  }

  /** The topic suppresses a page exactly when that same page was accepted less than the window
      ago: no other page can keep it out. */
  lemma OnlyItselfSuppressesAPage(batch: nat, t0: Transport, steps: seq<Step>, t: Transport, page: Page)
    requires Start(t0) && Run(batch, t0, steps, t)
    requires PlainPage(page) && forall p :: p in t.accepted ==> PlainPage(p.page)
    ensures Suppressed(t, page) <==>
      exists p :: p in t.accepted && p.page == page && t.now < p.at + 300
    ensures forall i, j :: 0 <= i < j < |t.accepted| && t.accepted[i].page == t.accepted[j].page ==>
      t.accepted[i].at + 300 <= t.accepted[j].at
  {
    RunKeepsInv(batch, t0, steps, t);
    forall p | p in t.accepted ensures DedupId(p.page) == DedupId(page) <==> p.page == page {
      DedupIdTellsPagesApart(p.page, page);
    }
    if exists p :: p in t.accepted && p.page == page && t.now < p.at + DEDUP_WINDOW_SECONDS {
      var p :| p in t.accepted && p.page == page && t.now < p.at + DEDUP_WINDOW_SECONDS;
      assert Suppresses(p, page, t.now);
    }
  }
}
