/** How long a page can be held up by the pages ahead of it in its message group. */
module HeadOfLine {
  import opened PagingQueue

  // ---- The messages ahead of one message

  /** What is left ahead once the front `batch` live messages were received and settled. */
  function AheadAfter(ahead: seq<Message>, batch: nat, acked: set<Page>): seq<Message>
    requires batch <= |Live(ahead)|
  {
    Kept(Received(Live(ahead)[..batch]), acked) + Live(ahead)[batch..]
  }

  lemma {:induction false} LiveSplit(a: seq<Message>, b: seq<Message>)
    ensures Live(a + b) == Live(a) + Live(b)
  {
    if a == [] {
      assert a + b == b;
    } else {
      assert (a + b)[1..] == a[1..] + b;
      LiveSplit(a[1..], b);
    }
  }

  lemma {:induction false} ReceivedSplit(a: seq<Message>, b: seq<Message>)
    ensures Received(a + b) == Received(a) + Received(b)
  {
    if a == [] {
      assert a + b == b;
    } else {
      assert (a + b)[1..] == a[1..] + b;
      ReceivedSplit(a[1..], b);
    }
  }

  lemma {:induction false} KeptSplit(a: seq<Message>, b: seq<Message>, acked: set<Page>)
    ensures Kept(a + b, acked) == Kept(a, acked) + Kept(b, acked)
  {
    if a == [] {
      assert a + b == b;
    } else {
      assert (a + b)[1..] == a[1..] + b;
      KeptSplit(a[1..], b, acked);
    }
  }

  lemma {:induction false} LiveTwice(ms: seq<Message>)
    ensures Live(Live(ms)) == Live(ms)
  {
    if ms != [] {
      LiveTwice(ms[1..]);
      assert !Exhausted(ms[0]) ==> Live(ms)[1..] == Live(ms[1..]);
    }
  }

  lemma {:induction false} NoneLive(ms: seq<Message>)
    requires forall m :: m in ms ==> Exhausted(m)
    ensures Live(ms) == []
  {
    if ms != [] {
      assert ms[0] in ms;
      NoneLive(ms[1..]);
    }
  }

  predicate AllReceived(ms: seq<Message>, times: nat) {
    forall m :: m in ms ==> m.receives >= times
  }

  function BlockAfter(x: seq<Message>, acked: set<Page>): seq<Message> {
    Kept(Received(Live(x)), acked)
  }

  /** One round over a block `x` of at most `batch` messages and the `y` behind it. */
  lemma RoundOnBlock(x: seq<Message>, y: seq<Message>, batch: nat, acked: set<Page>) returns (y': seq<Message>)
    requires |x| <= batch <= |Live(x + y)|
    ensures AheadAfter(x + y, batch, acked) == BlockAfter(x, acked) + y' && |y'| <= |y|
  {
    var lx, ly := Live(x), Live(y);
    LiveSplit(x, y);
    LiveFrom(x);
    LiveFrom(y);
    var n := batch - |lx|;
    var front := Received(ly[..n]);
    assert (lx + ly)[..batch] == lx + ly[..n] && (lx + ly)[batch..] == ly[n..];
    ReceivedSplit(lx, ly[..n]);
    KeptSplit(Received(lx), front, acked);
    ReceivedFrom(ly[..n]);
    SettledFrom(front, acked);
    y' := Kept(front, acked) + ly[n..];
  }

  lemma BlockIsReceived(x: seq<Message>, acked: set<Page>, times: nat)
    requires AllReceived(x, times)
    ensures AllReceived(BlockAfter(x, acked), times + 1) && |BlockAfter(x, acked)| <= |x|
  {
    LiveFrom(x);
    ReceivedFrom(Live(x));
    SettledFrom(Received(Live(x)), acked);
  }

  /** Any three rounds, however they go, dispose of at least `batch` of the messages ahead. */
  lemma ThreeRounds(a0: seq<Message>, batch: nat, k1: set<Page>, k2: set<Page>, k3: set<Page>)
    requires batch <= |Live(a0)|
    requires var a1 := AheadAfter(a0, batch, k1);
      batch <= |Live(a1)| && batch <= |Live(AheadAfter(a1, batch, k2))|
    ensures var a3 := AheadAfter(AheadAfter(AheadAfter(a0, batch, k1), batch, k2), batch, k3);
      |Live(a3)| + batch <= |Live(a0)|
  {
    var x0, y0 := Live(a0)[..batch], Live(a0)[batch..];
    assert x0 + y0 == Live(a0);
    LiveTwice(a0);
    BlockIsReceived(x0, k1, 0);
    var x1 := BlockAfter(x0, k1);
    var y1 := RoundOnBlock(x0, y0, batch, k1);
    BlockIsReceived(x1, k2, 1);
    var x2 := BlockAfter(x1, k2);
    var y2 := RoundOnBlock(x1, y1, batch, k2);
    BlockIsReceived(x2, k3, 2);
    var x3 := BlockAfter(x2, k3);
    var y3 := RoundOnBlock(x2, y2, batch, k3);
    NoneLive(x3);
    LiveSplit(x3, y3);
    LiveFrom(y3);
  }

  // ---- Polling one group

  function SendAll(g: Group, pages: seq<Page>): Group
    decreases |pages|
  {
    if pages == [] then g else SendAll(Send(g, pages[0]), pages[1..])
  }

  function Round(batch: nat, g: Group, acked: set<Page>, arrivals: seq<Page>): Group
    requires g.inFlight == []
  {
    SendAll(Settle(Receive(g, batch), acked), arrivals)
  }

  /** The group just before each receive: `acks[r]` is what the worker acknowledged of receive `r`,
      `arrivals[r]` what was published before the next one. */
  ghost predicate Polled(
    batch: nat, groups: seq<Group>, acks: seq<set<Page>>, arrivals: seq<seq<Page>>)
  {
    && |groups| == |acks| + 1 == |arrivals| + 1
    && (forall r :: 0 <= r < |groups| ==> groups[r].inFlight == [])
    && (forall r {:trigger groups[r + 1]} {:trigger acks[r]} :: 0 <= r < |acks| ==>
          groups[r + 1] == Round(batch, groups[r], acks[r], arrivals[r]))
  }

  /** `target` waits in the group, unreceived, behind `ahead`. */
  ghost predicate Behind(g: Group, ahead: seq<Message>, target: Page) {
    exists behind :: g.waiting == ahead + [Message(target, 0)] + behind
  }

  predicate Reached(batch: nat, g: Group, target: Page)
    requires g.inFlight == []
  {
    Message(target, 1) in Receive(g, batch).inFlight
  }

  lemma {:induction false} SendAllWaiting(g: Group, pages: seq<Page>) returns (added: seq<Message>)
    ensures SendAll(g, pages).waiting == g.waiting + added && SendAll(g, pages).inFlight == g.inFlight
    decreases |pages|
  {
    if pages == [] {
      added := [];
    } else {
      var rest := SendAllWaiting(Send(g, pages[0]), pages[1..]);
      added := [Message(pages[0], 0)] + rest;
    }
  }

  lemma Regroup<T>(a: seq<T>, b: seq<T>, c: seq<T>, d: seq<T>, e: seq<T>)
    ensures a + (b + c + d) + e == a + b + c + (d + e)
  {
  }

  /** While a full batch is ahead of it, the target stays and only what is ahead changes. */
  lemma RoundKeepsBehind(
    batch: nat, g: Group, acked: set<Page>, arrivals: seq<Page>, ahead: seq<Message>, target: Page)
    requires g.inFlight == [] && Behind(g, ahead, target) && batch <= |Live(ahead)|
    ensures Behind(Round(batch, g, acked, arrivals), AheadAfter(ahead, batch, acked), target)
  {
    var t := [Message(target, 0)];
    var behind :| g.waiting == ahead + t + behind;
    LiveSplit(ahead + t, behind);
    LiveSplit(ahead, t);
    assert Live(t) == t;
    var live := Live(ahead) + t + Live(behind);
    assert live[..batch] == Live(ahead)[..batch];
    assert live[batch..] == Live(ahead)[batch..] + t + Live(behind);
    var added := SendAllWaiting(Settle(Receive(g, batch), acked), arrivals);
    var kept := Kept(Received(Live(ahead)[..batch]), acked);
    Regroup(kept, Live(ahead)[batch..], t, Live(behind), added);
    assert Round(batch, g, acked, arrivals).waiting == kept + (Live(ahead)[batch..] + t + Live(behind)) + added;
  }

  /** With less than a full batch ahead of it, the target is received. */
  lemma ReachedBehindLess(batch: nat, g: Group, ahead: seq<Message>, target: Page)
    requires g.inFlight == [] && Behind(g, ahead, target) && |Live(ahead)| < batch
    ensures Reached(batch, g, target)
  {
    var t := [Message(target, 0)];
    var behind :| g.waiting == ahead + t + behind;
    LiveSplit(ahead + t, behind);
    LiveSplit(ahead, t);
    assert Live(t) == t;
    var live := Live(ahead) + t + Live(behind);
    var n := Min(batch, |live|);
    var rest := live[..n][|Live(ahead)| + 1..];
    assert live[..n] == Live(ahead) + (t + rest);
    ReceivedSplit(Live(ahead), t + rest);
    assert (t + rest)[0] == Message(target, 0);
  }

  /** One receive: it takes the target, or leaves it behind what `AheadAfter` says. */
  lemma FollowOne(
    batch: nat, groups: seq<Group>, acks: seq<set<Page>>, arrivals: seq<seq<Page>>,
    from: nat, ahead: seq<Message>, target: Page)
    requires Polled(batch, groups, acks, arrivals) && from < |groups|
    requires Behind(groups[from], ahead, target)
    ensures |Live(ahead)| < batch ==> Reached(batch, groups[from], target)
    ensures batch <= |Live(ahead)| && from < |acks| ==>
      Behind(groups[from + 1], AheadAfter(ahead, batch, acks[from]), target)
  {
    if |Live(ahead)| < batch {
      ReachedBehindLess(batch, groups[from], ahead, target);
    } else if from < |acks| {
      RoundKeepsBehind(batch, groups[from], acks[from], arrivals[from], ahead, target);
    }
  }

  /** The target is received within three receives for every full batch ahead of it, whatever the
      worker acknowledges and whatever is published meanwhile. */
  lemma {:induction false} FollowTarget(
    batch: nat, groups: seq<Group>, acks: seq<set<Page>>, arrivals: seq<seq<Page>>,
    from: nat, ahead: seq<Message>, target: Page, blocks: nat)
    returns (r: nat)
    requires batch > 0 && Polled(batch, groups, acks, arrivals)
    requires from + 3 * blocks < |groups|
    requires Behind(groups[from], ahead, target) && |Live(ahead)| < blocks * batch + batch
    ensures from <= r <= from + 3 * blocks && Reached(batch, groups[r], target)
    decreases blocks
  {
    FollowOne(batch, groups, acks, arrivals, from, ahead, target);
    if |Live(ahead)| < batch {
      return from;
    }
    assert blocks > 0;
    var a1 := AheadAfter(ahead, batch, acks[from]);
    FollowOne(batch, groups, acks, arrivals, from + 1, a1, target);
    if |Live(a1)| < batch {
      return from + 1;
    }
    var a2 := AheadAfter(a1, batch, acks[from + 1]);
    FollowOne(batch, groups, acks, arrivals, from + 2, a2, target);
    if |Live(a2)| < batch {
      return from + 2;
    }
    ThreeRounds(ahead, batch, acks[from], acks[from + 1], acks[from + 2]);
    assert (blocks - 1) * batch == blocks * batch - batch;
    r := FollowTarget(batch, groups, acks, arrivals, from + 3,
                      AheadAfter(a2, batch, acks[from + 2]), target, blocks - 1);
  }

  // ---- In seconds

  /** Each receive comes at most `gap` seconds after the one before it. */
  predicate Prompt(times: seq<int>, gap: nat) {
    forall r {:trigger times[r]} :: 1 <= r < |times| ==> times[r] <= times[r - 1] + gap
  }

  lemma {:induction false} PromptBound(times: seq<int>, gap: nat, r: nat)
    requires Prompt(times, gap) && r < |times|
    ensures times[r] <= times[0] + r * gap
  {
    if r > 0 {
      PromptBound(times, gap, r - 1);
      assert r * gap == (r - 1) * gap + gap;
    }
  }

  /** The most receives that can go by before a page with `k` pages ahead of it is received. */
  function RoundsBehind(k: nat, batch: nat): nat
    requires batch > 0
  {
    MAX_RECEIVE_COUNT * (k / batch)
  }

  lemma FullBatches(k: nat, batch: nat)
    requires batch > 0
    ensures (k / batch) * batch <= k < (k / batch) * batch + batch
  {
    assert k == (k / batch) * batch + k % batch;
  }

  lemma ScaleUp(a: nat, b: nat, factor: nat)
    requires a <= b
    ensures a * factor <= b * factor
  {
  }

  /** Head of line: with `k` pages ahead and a receive at most one visibility timeout after the
      one before, the target is received within that many visibility timeouts, whatever the worker
      acknowledges of the pages ahead and whatever is published behind. */
  lemma HeadOfLineBound(
    batch: nat, groups: seq<Group>, acks: seq<set<Page>>, arrivals: seq<seq<Page>>, times: seq<int>,
    ahead: seq<Message>, target: Page, visibility: nat)
    returns (r: nat)
    requires batch > 0 && Polled(batch, groups, acks, arrivals)
    requires |times| == |groups| > RoundsBehind(|ahead|, batch) && Prompt(times, visibility)
    requires Behind(groups[0], ahead, target)
    ensures r < |groups| && Reached(batch, groups[r], target)
    ensures r <= RoundsBehind(|ahead|, batch)
    ensures times[r] <= times[0] + RoundsBehind(|ahead|, batch) * visibility
  {
    LiveFrom(ahead);
    var blocks := |ahead| / batch;
    FullBatches(|ahead|, batch);
    r := FollowTarget(batch, groups, acks, arrivals, 0, ahead, target, blocks);
    PromptBound(times, visibility, r);
    ScaleUp(r, RoundsBehind(|ahead|, batch), visibility);
  }

  // ---- The bound is reached

  lemma {:induction false} KeepAll(ms: seq<Message>)
    ensures Kept(ms, {}) == ms
  {
    if ms != [] {
      KeepAll(ms[1..]);
    }
  }

  lemma {:induction false} AllLive(ms: seq<Message>)
    requires forall m :: m in ms ==> !Exhausted(m)
    ensures Live(ms) == ms
  {
    if ms != [] {
      assert ms[0] in ms;
      AllLive(ms[1..]);
    }
  }

  predicate Times(ms: seq<Message>, n: nat) {
    forall m :: m in ms ==> m.receives == n
  }

  /** A round in which the front block, received `n` times before, fails again. */
  lemma FailingRound(ahead: seq<Message>, x: seq<Message>, y: seq<Message>, n: nat)
    requires Live(ahead) == x + y && Times(x, n) && Times(y, 0) && n < MAX_RECEIVE_COUNT
    ensures AheadAfter(ahead, |x|, {}) == Received(x) + y && Times(Received(x), n + 1)
    ensures Live(Received(x) + y) == if n + 1 < MAX_RECEIVE_COUNT then Received(x) + y else y
  {
    assert (x + y)[..|x|] == x && (x + y)[|x|..] == y;
    KeepAll(Received(x));
    ReceivedFrom(x);
    LiveSplit(Received(x), y);
    AllLive(y);
    if n + 1 < MAX_RECEIVE_COUNT {
      AllLive(Received(x));
    } else {
      NoneLive(Received(x));
    }
  }

  lemma NotReachedBehindMore(batch: nat, g: Group, ahead: seq<Message>, target: Page)
    requires g.inFlight == [] && Behind(g, ahead, target) && batch <= |Live(ahead)|
    requires forall m :: m in ahead ==> m.page != target
    ensures !Reached(batch, g, target)
  {
    var t := [Message(target, 0)];
    var behind :| g.waiting == ahead + t + behind;
    LiveSplit(ahead + t, behind);
    LiveSplit(ahead, t);
    LiveFrom(ahead);
    assert Live(g.waiting)[..batch] == Live(ahead)[..batch];
    ReceivedFrom(Live(ahead)[..batch]);
  }

  /** The worker acknowledges nothing. */
  predicate AllFail(acks: seq<set<Page>>) {
    forall r :: 0 <= r < |acks| ==> acks[r] == {}
  }

  /** `ahead` leaves the target unreached for one round, and becomes `after`. */
  lemma HeldUpOne(
    batch: nat, groups: seq<Group>, acks: seq<set<Page>>, arrivals: seq<seq<Page>>,
    from: nat, ahead: seq<Message>, target: Page)
    requires Polled(batch, groups, acks, arrivals) && AllFail(acks) && from < |acks|
    requires Behind(groups[from], ahead, target) && batch <= |Live(ahead)|
    requires forall m :: m in ahead ==> m.page != target
    ensures !Reached(batch, groups[from], target)
    ensures Behind(groups[from + 1], AheadAfter(ahead, batch, {}), target)
    ensures forall m :: m in AheadAfter(ahead, batch, {}) ==> m.page != target
  {
    NotReachedBehindMore(batch, groups[from], ahead, target);
    FollowOne(batch, groups, acks, arrivals, from, ahead, target);
    LiveFrom(ahead);
    ReceivedFrom(Live(ahead)[..batch]);
    SettledFrom(Received(Live(ahead)[..batch]), {});
  }

  lemma HeldUpRound(
    batch: nat, groups: seq<Group>, acks: seq<set<Page>>, arrivals: seq<seq<Page>>,
    from: nat, ahead: seq<Message>, target: Page, x: seq<Message>, y: seq<Message>, n: nat)
    requires Polled(batch, groups, acks, arrivals) && AllFail(acks) && from < |acks|
    requires Behind(groups[from], ahead, target) && forall m :: m in ahead ==> m.page != target
    requires Live(ahead) == x + y && |x| == batch
    requires Times(x, n) && Times(y, 0) && n < MAX_RECEIVE_COUNT
    ensures !Reached(batch, groups[from], target)
    ensures Behind(groups[from + 1], Received(x) + y, target)
    ensures forall m :: m in Received(x) + y ==> m.page != target
    ensures |Received(x)| == batch && Times(Received(x), n + 1)
    ensures Live(Received(x) + y) == if n + 1 < MAX_RECEIVE_COUNT then Received(x) + y else y
  {
    FailingRound(ahead, x, y, n);
    HeldUpOne(batch, groups, acks, arrivals, from, ahead, target);
    ReceivedFrom(x);
  }

  /** Three rounds of a block that always fails. */
  lemma HeldUpBlock(
    batch: nat, groups: seq<Group>, acks: seq<set<Page>>, arrivals: seq<seq<Page>>,
    from: nat, ahead: seq<Message>, target: Page, x: seq<Message>, y: seq<Message>)
    returns (left: seq<Message>)
    requires Polled(batch, groups, acks, arrivals) && AllFail(acks) && from + 3 < |groups|
    requires Behind(groups[from], ahead, target) && forall m :: m in ahead ==> m.page != target
    requires Live(ahead) == x + y && |x| == batch && Times(x, 0) && Times(y, 0)
    ensures !Reached(batch, groups[from], target)
    ensures !Reached(batch, groups[from + 1], target)
    ensures !Reached(batch, groups[from + 2], target)
    ensures Behind(groups[from + 3], left, target) && forall m :: m in left ==> m.page != target
    ensures Live(left) == y
  {
    var x1 := Received(x);
    var x2 := Received(x1);
    left := Received(x2) + y;
    HeldUpRound(batch, groups, acks, arrivals, from, ahead, target, x, y, 0);
    HeldUpRound(batch, groups, acks, arrivals, from + 1, x1 + y, target, x1, y, 1);
    HeldUpRound(batch, groups, acks, arrivals, from + 2, x2 + y, target, x2, y, 2);
  }

  /** Pages that always fail hold the target up for three receives a full batch. */
  lemma {:induction false} HeldUp(
    batch: nat, groups: seq<Group>, acks: seq<set<Page>>, arrivals: seq<seq<Page>>,
    from: nat, ahead: seq<Message>, target: Page, blocks: nat)
    requires batch > 0 && Polled(batch, groups, acks, arrivals) && AllFail(acks)
    requires from + 3 * blocks < |groups|
    requires Behind(groups[from], ahead, target) && forall m :: m in ahead ==> m.page != target
    requires Times(Live(ahead), 0) && blocks * batch <= |Live(ahead)|
    ensures forall r :: from <= r < from + 3 * blocks ==> !Reached(batch, groups[r], target)
    decreases blocks
  {
    if blocks > 0 {
      assert blocks * batch == (blocks - 1) * batch + batch;
      ScaleUp(0, blocks - 1, batch);
      var x, y := Live(ahead)[..batch], Live(ahead)[batch..];
      assert Live(ahead) == x + y;
      var left := HeldUpBlock(batch, groups, acks, arrivals, from, ahead, target, x, y);
      HeldUp(batch, groups, acks, arrivals, from + 3, left, target, blocks - 1);
    }
  }

  /** When nothing ahead is ever acknowledged and each receive comes one visibility timeout after
      the one before, the bound is met to the second. */
  lemma HeadOfLineBoundIsMet(
    batch: nat, groups: seq<Group>, acks: seq<set<Page>>, arrivals: seq<seq<Page>>,
    ahead: seq<Message>, target: Page)
    requires batch > 0 && Polled(batch, groups, acks, arrivals) && AllFail(acks)
    requires |groups| > RoundsBehind(|ahead|, batch)
    requires Behind(groups[0], ahead, target) && forall m :: m in ahead ==> m.page != target
    requires Times(ahead, 0)
    ensures forall r :: 0 <= r <= RoundsBehind(|ahead|, batch) ==>
      (Reached(batch, groups[r], target) <==> r == RoundsBehind(|ahead|, batch))
  {
    AllLive(ahead);
    var blocks := |ahead| / batch;
    FullBatches(|ahead|, batch);
    HeldUp(batch, groups, acks, arrivals, 0, ahead, target, blocks);
    var r := FollowTarget(batch, groups, acks, arrivals, 0, ahead, target, blocks);
  }

  // ---- The oldest-message alarm

  /** However long a group is polled promptly, a page with `k` pages ahead of it is received in
      less than `limit` seconds. */
  ghost predicate ReachedWithin(batch: nat, k: nat, visibility: nat, limit: int)
    requires batch > 0
  {
    forall groups: seq<Group>, acks, arrivals, times: seq<int>, ahead: seq<Message>, target ::
      && Polled(batch, groups, acks, arrivals) && |times| == |groups| > RoundsBehind(k, batch)
      && Prompt(times, visibility) && Behind(groups[0], ahead, target) && |ahead| == k
      ==> exists r :: 0 <= r < |groups| && Reached(batch, groups[r], target) && times[r] < times[0] + limit
  }

  function FailingGroups(batch: nat, g: Group, n: nat): seq<Group>
    requires g.inFlight == []
    decreases n
  {
    if n == 0 then [g] else [g] + FailingGroups(batch, Round(batch, g, {}, []), n - 1)
  }

  lemma {:induction false} FailingGroupsArePolled(batch: nat, g: Group, n: nat)
    requires g.inFlight == []
    ensures Polled(batch, FailingGroups(batch, g, n), seq(n, _ => {}), seq(n, _ => []))
    ensures FailingGroups(batch, g, n)[0] == g
    decreases n
  {
    var acks: seq<set<Page>> := seq(n, _ => {});
    var arrivals: seq<seq<Page>> := seq(n, _ => []);
    if n > 0 {
      var next := Round(batch, g, {}, []);
      FailingGroupsArePolled(batch, next, n - 1);
      var rest := FailingGroups(batch, next, n - 1);
      forall r | 0 <= r < n
        ensures ([g] + rest)[r + 1] == Round(batch, ([g] + rest)[r], acks[r], arrivals[r])
      {
        if r > 0 {
          var before: seq<set<Page>> := seq(n - 1, _ => {});
          var published: seq<seq<Page>> := seq(n - 1, _ => []);
          assert rest[r - 1 + 1] == Round(batch, rest[r - 1], before[r - 1], published[r - 1]);
        }
      }
    }
  }

  /** A history that meets the bound: `k` pages that always fail, received every `visibility`
      seconds. */
  lemma SlowestHistory(batch: nat, k: nat, visibility: nat)
    returns (groups: seq<Group>, acks: seq<set<Page>>, arrivals: seq<seq<Page>>, times: seq<int>,
             ahead: seq<Message>, target: Page)
    requires batch > 0
    ensures Polled(batch, groups, acks, arrivals) && |times| == |groups| > RoundsBehind(k, batch)
    ensures Prompt(times, visibility) && Behind(groups[0], ahead, target) && |ahead| == k
    ensures forall r :: 0 <= r < |groups| && Reached(batch, groups[r], target) ==>
      times[r] >= times[0] + RoundsBehind(k, batch) * visibility
  {
    var bound := RoundsBehind(k, batch);
    target := Page("d", k, "m", "voice");
    ahead := seq(k, (i: nat) => Message(Page("d", i, "m", "voice"), 0));
    var waiting := ahead + [Message(target, 0)];
    var g := Group(Pages(waiting), waiting, [], []);
    groups := FailingGroups(batch, g, bound);
    FailingGroupsArePolled(batch, g, bound);
    acks, arrivals := seq(bound, _ => {}), seq(bound, _ => []);
    times := seq(bound + 1, (r: nat) => r * visibility);
    assert g.waiting == ahead + [Message(target, 0)] + [];
    forall r | 1 <= r < |times| ensures times[r] <= times[r - 1] + visibility {
      assert r * visibility == (r - 1) * visibility + visibility;
    }
    HeadOfLineBoundIsMet(batch, groups, acks, arrivals, ahead, target);
  }

  /** The bound in seconds is exact. */
  lemma ReachedWithinExactly(batch: nat, k: nat, visibility: nat, limit: int)
    requires batch > 0
    ensures ReachedWithin(batch, k, visibility, limit) <==> RoundsBehind(k, batch) * visibility < limit
  {
    if RoundsBehind(k, batch) * visibility < limit {
      forall groups: seq<Group>, acks, arrivals, times: seq<int>, ahead: seq<Message>, target |
        && Polled(batch, groups, acks, arrivals) && |times| == |groups| > RoundsBehind(k, batch)
        && Prompt(times, visibility) && Behind(groups[0], ahead, target) && |ahead| == k
        ensures exists r :: 0 <= r < |groups| && Reached(batch, groups[r], target) && times[r] < times[0] + limit
      {
        var r := HeadOfLineBound(batch, groups, acks, arrivals, times, ahead, target, visibility);
      }
    } else {
      var groups, acks, arrivals, times, ahead, target := SlowestHistory(batch, k, visibility);
    }
  }

  /** At the default worker timeout a page waits no longer than the oldest-message alarm's
      threshold exactly when fewer than two full batches are ahead of it; one page at a time, that
      is one failing page, for ninety seconds. */
  lemma StaysBelowTheAgeAlarm(batch: nat, k: nat)
    requires batch > 0
    ensures ReachedWithin(batch, k, Visibility(DEFAULT_WORKER_TIMEOUT_SECONDS), OLDEST_MESSAGE_ALARM_SECONDS)
       <==> k < 2 * batch
    ensures RoundsBehind(1, 1) * Visibility(DEFAULT_WORKER_TIMEOUT_SECONDS) == 90
  {
    ReachedWithinExactly(batch, k, Visibility(DEFAULT_WORKER_TIMEOUT_SECONDS), OLDEST_MESSAGE_ALARM_SECONDS);
    LessThanTwo(k, batch);
  }

  lemma LessThanTwo(k: nat, batch: nat)
    requires batch > 0
    ensures k / batch <= 1 <==> k < 2 * batch
  {
    FullBatches(k, batch);
    if k / batch >= 2 {
      ScaleUp(2, k / batch, batch);
    } else {
      ScaleUp(k / batch, 1, batch);
    }
  }
}
