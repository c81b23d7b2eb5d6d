/** The UPDATE notice a CAD message owes its crew when it changes the call: a pending marker written
    with the update, an asynchronous notifier that can be lost or die at any point, and a sweep over
    the markers, page by page. */
module CadNotices {
  import opened MemberStatus
  import opened Delimited
  import CadUpdates

  const REDRIVE_AFTER_SECONDS: nat := 120
  const PENDING_NOTICE_RETENTION_SECONDS := 604_800
  const TIME_DIGITS: nat := 12

  // ---- Sort keys

  /** The order of sort keys. */
  predicate Before(a: string, b: string) {
    if a == "" then b != ""
    else b != "" && (a[0] < b[0] || (a[0] == b[0] && Before(a[1..], b[1..])))
  }

  function PadStart(s: string, width: nat): string {
    seq(if |s| < width then width - |s| else 0, _ => '0') + s
  }

  datatype Id = Id(dispatchId: string, updateId: string)

  /** The marker's sort key: the time it was received at, padded, then what it is about. */
  function PendingKey(receivedAt: nat, id: Id): string {
    Join([PadStart(Decimal(receivedAt), TIME_DIGITS), id.dispatchId, id.updateId])
  }

  predicate Fits(n: nat, width: nat) {
    if width == 0 then n == 0 else Fits(n / 10, width - 1)
  }

  function Digits(n: nat, width: nat): (s: string)
    ensures |s| == width
  {
    if width == 0 then "" else Digits(n / 10, width - 1) + [Digit(n % 10)]
  }

  lemma {:induction false} ZeroDigits(width: nat)
    ensures Digits(0, width) == seq(width, _ => '0')
  {
    if width > 0 {
      ZeroDigits(width - 1);
    }
  }

  lemma {:induction false} PaddedDigits(n: nat, width: nat)
    requires width > 0 && Fits(n, width)
    ensures PadStart(Decimal(n), width) == Digits(n, width)
  {
    if n < 10 {
      ZeroDigits(width - 1);
    } else {
      assert width > 1 by {
        if width == 1 { assert false; }
      }
      PaddedDigits(n / 10, width - 1);
      assert |Decimal(n)| == |Decimal(n / 10)| + 1;
    }
  }

  lemma {:induction false} BeforeByLast(a: string, x: char, b: string, y: char)
    requires |a| == |b|
    ensures Before(a + [x], b + [y]) <==> Before(a, b) || (a == b && x < y)
  {
    if a != "" {
      assert (a + [x])[1..] == a[1..] + [x] && (b + [y])[1..] == b[1..] + [y];
      assert a == [a[0]] + a[1..] && b == [b[0]] + b[1..];
      BeforeByLast(a[1..], x, b[1..], y);
    }
  }

  lemma {:induction false} DigitsInOrder(m: nat, n: nat, width: nat)
    requires Fits(m, width) && Fits(n, width)
    ensures Before(Digits(m, width), Digits(n, width)) <==> m < n
    ensures Digits(m, width) == Digits(n, width) <==> m == n
  {
    if width > 0 {
      DigitsInOrder(m / 10, n / 10, width - 1);
      var a, b := Digits(m / 10, width - 1), Digits(n / 10, width - 1);
      var x, y := Digit(m % 10), Digit(n % 10);
      BeforeByLast(a, x, b, y);
      assert (a + [x])[..width - 1] == a && (a + [x])[width - 1] == x;
      assert (b + [y])[..width - 1] == b && (b + [y])[width - 1] == y;
    }
  }

  lemma {:induction false} BeforeIgnoresTail(a: string, tail: string, b: string)
    requires |a| == |b|
    ensures Before(a + tail, b) <==> Before(a, b)
  {
    if a != "" {
      assert (a + tail)[1..] == a[1..] + tail;
      BeforeIgnoresTail(a[1..], tail, b[1..]);
    }
  }

  /** The sweep's key condition picks exactly the markers received before its cutoff. */
  lemma SweptIffReceivedBefore(receivedAt: nat, id: Id, cutoff: nat)
    requires Fits(receivedAt, TIME_DIGITS) && Fits(cutoff, TIME_DIGITS)
    ensures Before(PendingKey(receivedAt, id), PadStart(Decimal(cutoff), TIME_DIGITS)) <==> receivedAt < cutoff
  {
    PaddedDigits(receivedAt, TIME_DIGITS);
    PaddedDigits(cutoff, TIME_DIGITS);
    DigitsInOrder(receivedAt, cutoff, TIME_DIGITS);
    var parts := [PadStart(Decimal(receivedAt), TIME_DIGITS), id.dispatchId, id.updateId];
    var tail := [DELIMITER] + Join(parts[1..]);
    assert PendingKey(receivedAt, id) == parts[0] + tail;
    BeforeIgnoresTail(parts[0], tail, Digits(cutoff, TIME_DIGITS));
  }

  // ---- The protocol

  /** `before` is the dispatch as the message found it. */
  datatype Update = Update(
    before: CadUpdates.Dispatch,
    message: CadUpdates.Message,
    kind: CadUpdates.Kind,
    receivedAt: nat,
    notifiedAt: Option<nat>)

  /** The pending marker of an update whose notice is owed, written at `writtenAt`. */
  datatype Marker = Marker(receivedAt: nat, writtenAt: nat)

  /** `handed` are the updates one sweep has handed over so far. */
  datatype Sweeper = Sweeper(startedAt: nat, handed: set<Id>)

  datatype Notifier = Reading(id: Id) | Publishing(id: Id) | Marking(id: Id) | Clearing(id: Id)

  /** `markers` is the history of all pending markers, `pending` those still there; `invoked` holds the
      asynchronous invocations not started yet; `told` is the history of the updates whose notice went
      out to every member of its audience; `silent` are the dispatches that nobody is told about: tests,
      and those whose record is gone. */
  datatype State = State(
    now: nat,
    updates: map<Id, Update>,
    markers: map<Id, Marker>,
    pending: set<Id>,
    sweeps: seq<Sweeper>,
    invoked: set<Id>,
    notifiers: seq<Notifier>,
    told: set<Id>,
    silent: set<string>)

  datatype Step =
    | Tick(seconds: nat)
    | Record(id: Id, before: CadUpdates.Dispatch, message: CadUpdates.Message, receivedAt: nat)
    | HandOff(id: Id)
    | SweepStarts
    | SweepHands(k: nat, id: Id)
    | SweepEnds(k: nat)
    | SweepDies(k: nat)
    | Start(id: Id, last: bool)
    | Read(i: nat)
    | Publish(i: nat)
    | PassOver(i: nat)
    | Silence(dispatchId: string)
    | Mark(i: nat)
    | Clear(i: nat)
    | Die(i: nat)
    | ExpireMarker(id: Id)

  /** What a retry of an update asks of its row. */
  predicate NeedsNotice(u: Update) {
    !u.kind.History? && u.notifiedAt.None?
  }

  /** The key condition of a sweep that started then. */
  predicate Due(m: Marker, id: Id, startedAt: nat)
    requires startedAt >= REDRIVE_AFTER_SECONDS
  {
    Before(PendingKey(m.receivedAt, id), PadStart(Decimal(startedAt - REDRIVE_AFTER_SECONDS), TIME_DIGITS))
  }

  predicate Sweeping(s: State, k: nat) {
    k < |s.sweeps| && s.sweeps[k].startedAt >= REDRIVE_AFTER_SECONDS
  }

  /** The sweep's pages are ordinary reads, one after the other: each may miss a marker written less
      than `lag` ago, or show one that is gone. */
  predicate SweptOut(lag: nat, s: State, w: Sweeper)
    requires w.startedAt >= REDRIVE_AFTER_SECONDS
  {
    forall id :: id in s.pending && id in s.markers ==>
      (s.markers[id].writtenAt + lag <= w.startedAt && Due(s.markers[id], id, w.startedAt) ==> id in w.handed)
  }

  predicate CanStep(lag: nat, s: State, step: Step) {
    match step
    case Tick(seconds) => Fits(s.now + seconds, TIME_DIGITS)
    case Record(id, before, message, receivedAt) =>
      id !in s.updates && receivedAt <= s.now && message.hash !in before.seen
    case HandOff(id) => id in s.updates && (s.updates[id].kind.Recorded? || NeedsNotice(s.updates[id]))
    case SweepStarts => s.now >= REDRIVE_AFTER_SECONDS
    case SweepHands(k, id) => Sweeping(s, k) && id in s.markers && Due(s.markers[id], id, s.sweeps[k].startedAt)
    case SweepEnds(k) => Sweeping(s, k) && SweptOut(lag, s, s.sweeps[k])
    case SweepDies(k) => k < |s.sweeps|
    case Start(id, _) => id in s.invoked
    case Read(i) => i < |s.notifiers| && s.notifiers[i].Reading? && s.notifiers[i].id in s.updates
    case Publish(i) =>
      i < |s.notifiers| && s.notifiers[i].Publishing? && s.notifiers[i].id.dispatchId !in s.silent
    case PassOver(i) =>
      i < |s.notifiers| && s.notifiers[i].Publishing? && s.notifiers[i].id.dispatchId in s.silent
    case Silence(_) => true
    case Mark(i) => i < |s.notifiers| && s.notifiers[i].Marking? && s.notifiers[i].id in s.updates
    case Clear(i) => i < |s.notifiers| && s.notifiers[i].Clearing?
    case Die(i) => i < |s.notifiers|
    case ExpireMarker(id) =>
      id in s.pending && id in s.markers && s.markers[id].receivedAt + PENDING_NOTICE_RETENTION_SECONDS <= s.now
  }

  function Without<T>(ns: seq<T>, i: nat): seq<T>
    requires i < |ns|
  {
    ns[..i] + ns[i + 1..]
  }

  /** Only a change is marked as pending, only a message without one is stamped at once; an older
      message is kept with neither. */
  function Recorded(
    s: State, id: Id, before: CadUpdates.Dispatch, message: CadUpdates.Message, receivedAt: nat): State
  {
    var kind := CadUpdates.KindOf(before, message);
    var notifiedAt := if kind.Unchanged? then Some(receivedAt) else None;
    var s' := s.(updates := s.updates[id := Update(before, message, kind, receivedAt, notifiedAt)]);
    if kind.Recorded? then
      s'.(markers := s.markers[id := Marker(receivedAt, s.now)], pending := s.pending + {id})
    else s'
  }

  function Next(lag: nat, s: State, step: Step): State
    requires CanStep(lag, s, step)
  {
    match step
    case Tick(seconds) => s.(now := s.now + seconds)
    case Record(id, before, message, receivedAt) => Recorded(s, id, before, message, receivedAt)
    case HandOff(id) => s.(invoked := s.invoked + {id})
    case SweepStarts => s.(sweeps := s.sweeps + [Sweeper(s.now, {})])
    case SweepHands(k, id) =>
      var w := s.sweeps[k];
      s.(sweeps := s.sweeps[k := w.(handed := w.handed + {id})], invoked := s.invoked + {id})
    case SweepEnds(k) => s.(sweeps := Without(s.sweeps, k))
    case SweepDies(k) => s.(sweeps := Without(s.sweeps, k))
    case Start(id, last) =>
      s.(invoked := if last then s.invoked - {id} else s.invoked, notifiers := s.notifiers + [Reading(id)])
    case Read(i) =>
      var id := s.notifiers[i].id;
      s.(notifiers := s.notifiers[i := if s.updates[id].notifiedAt.None? then Publishing(id) else Marking(id)])
    case Publish(i) =>
      var id := s.notifiers[i].id;
      s.(notifiers := s.notifiers[i := Marking(id)], told := s.told + {id})
    case PassOver(i) => s.(notifiers := s.notifiers[i := Marking(s.notifiers[i].id)])
    case Silence(dispatchId) => s.(silent := s.silent + {dispatchId})
    case Mark(i) =>
      var id := s.notifiers[i].id;
      var u := s.updates[id];
      s.(notifiers := s.notifiers[i := Clearing(id)],
         updates := s.updates[id := if u.notifiedAt.None? then u.(notifiedAt := Some(s.now)) else u])
    case Clear(i) =>
      s.(notifiers := Without(s.notifiers, i), pending := s.pending - {s.notifiers[i].id})
    case Die(i) => s.(notifiers := Without(s.notifiers, i))
    case ExpireMarker(id) => s.(pending := s.pending - {id})
  }

  ghost predicate Run(lag: nat, s0: State, steps: seq<Step>, s: State)
    decreases |steps|
  {
    if steps == [] then s == s0
    else CanStep(lag, s0, steps[0]) && Run(lag, Next(lag, s0, steps[0]), steps[1..], s)
  }

  predicate Init(s: State) {
    && s.updates == map[] && s.markers == map[] && s.pending == {} && s.sweeps == []
    && s.invoked == {} && s.notifiers == [] && s.told == {} && Fits(s.now, TIME_DIGITS)
  }

  /** The notice of the update went out, or its dispatch is one that nobody is told about. */
  predicate Settled(s: State, id: Id) {
    id in s.told || id.dispatchId in s.silent
  }

  predicate IsRecorded(s: State, id: Id) {
    id in s.updates && s.updates[id].kind.Recorded?
  }

  /** The update's crew was told, or its marker is still there for the sweep, or the marker's
      retention is over. */
  predicate Covered(s: State, id: Id)
    requires id in s.updates
  {
    || s.updates[id].notifiedAt.Some?
    || id in s.pending
    || s.now >= s.updates[id].receivedAt + PENDING_NOTICE_RETENTION_SECONDS
  }

  predicate AsReceived(before: CadUpdates.Dispatch, message: CadUpdates.Message, kind: CadUpdates.Kind) {
    message.hash !in before.seen && kind == CadUpdates.KindOf(before, message)
  }

  predicate UpdateInv(s: State, id: Id)
    requires id in s.updates
  {
    var u := s.updates[id];
    && u.receivedAt <= s.now && AsReceived(u.before, u.message, u.kind)
    && match u.kind
       case Recorded =>
         id in s.markers && Covered(s, id) && (u.notifiedAt.Some? ==> Settled(s, id))
       case Unchanged => u.notifiedAt == Some(u.receivedAt)
       case History => u.notifiedAt.None?
  }

  predicate MarkerInv(s: State, id: Id)
    requires id in s.markers
  {
    IsRecorded(s, id) && s.markers[id].receivedAt == s.updates[id].receivedAt
  }

  predicate NotifierInv(s: State, n: Notifier) {
    && IsRecorded(s, n.id)
    && (n.Marking? ==> Settled(s, n.id))
    && (n.Clearing? ==> s.updates[n.id].notifiedAt.Some?)
  }

  predicate SweeperInv(s: State, w: Sweeper) {
    && REDRIVE_AFTER_SECONDS <= w.startedAt <= s.now
    && forall id :: id in w.handed ==> id in s.markers && Due(s.markers[id], id, w.startedAt)
  }

  predicate Inv(s: State) {
    && (forall id :: id in s.updates ==> UpdateInv(s, id))
    && (forall id :: id in s.markers ==> MarkerInv(s, id))
    && s.pending <= s.markers.Keys
    && (forall w :: w in s.sweeps ==> SweeperInv(s, w))
    && (forall id :: id in s.invoked ==> IsRecorded(s, id))
    && (forall id :: id in s.told ==> IsRecorded(s, id))
    && (forall n :: n in s.notifiers ==> NotifierInv(s, n))
    && Fits(s.now, TIME_DIGITS)
  }

  lemma RecordKeepsInv(
    s: State, id: Id, before: CadUpdates.Dispatch, message: CadUpdates.Message, receivedAt: nat)
    requires Inv(s) && id !in s.updates && receivedAt <= s.now && message.hash !in before.seen
    ensures Inv(Recorded(s, id, before, message, receivedAt))
  {
    var s' := Recorded(s, id, before, message, receivedAt);
    assert id in s.markers ==> MarkerInv(s, id);
    forall n | n in s'.notifiers ensures NotifierInv(s', n) {
      assert NotifierInv(s, n) && n.id != id;
    }
    forall w | w in s'.sweeps ensures SweeperInv(s', w) {
      assert SweeperInv(s, w);
    }
    forall id' | id' in s'.updates ensures UpdateInv(s', id') {
      assert id' != id ==> UpdateInv(s, id');
    }
    forall id' | id' in s'.markers ensures MarkerInv(s', id') {
      assert id' != id ==> MarkerInv(s, id');
    }
    forall id' | id' in s'.invoked || id' in s'.told ensures IsRecorded(s', id') {
      assert IsRecorded(s, id');
    }
  }

  ghost predicate RecordsInv(s: State) {
    && (forall id :: id in s.updates ==> UpdateInv(s, id))
    && (forall id :: id in s.markers ==> MarkerInv(s, id))
  }

  /** What a step leaves of the records keeps their invariant. */
  lemma RecordsStay(s: State, s': State)
    requires RecordsInv(s) && s'.updates == s.updates && s'.markers == s.markers
    requires s.told <= s'.told && s.silent <= s'.silent && s.now <= s'.now
    requires forall id :: id in s.pending && id !in s'.pending && id in s.updates ==> Covered(s', id)
    ensures RecordsInv(s')
  {
    forall id | id in s'.updates ensures UpdateInv(s', id) {
      assert UpdateInv(s, id);
    }
    forall id | id in s'.markers ensures MarkerInv(s', id) {
      assert MarkerInv(s, id);
    }
  }

  lemma SweepersStay(s: State, s': State)
    requires (forall w :: w in s.sweeps ==> SweeperInv(s, w)) && s'.markers == s.markers && s.now <= s'.now
    requires forall w :: w in s'.sweeps ==> w in s.sweeps
    ensures forall w :: w in s'.sweeps ==> SweeperInv(s', w)
  {
    forall w | w in s'.sweeps ensures SweeperInv(s', w) {
      assert SweeperInv(s, w);
    }
  }

  lemma HandsKeepsInv(lag: nat, s: State, k: nat, id: Id)
    requires Inv(s) && CanStep(lag, s, SweepHands(k, id))
    ensures Inv(Next(lag, s, SweepHands(k, id)))
  {
    var s' := Next(lag, s, SweepHands(k, id));
    RecordsStay(s, s');
    assert SweeperInv(s, s.sweeps[k]) && MarkerInv(s, id);
    forall w | w in s'.sweeps ensures SweeperInv(s', w) {
      assert w in s.sweeps ==> SweeperInv(s, w);
    }
  }

  lemma SweepKeepsInv(lag: nat, s: State, step: Step)
    requires Inv(s) && CanStep(lag, s, step) && (step.SweepStarts? || step.SweepEnds? || step.SweepDies?)
    ensures Inv(Next(lag, s, step))
  {
    var s' := Next(lag, s, step);
    RecordsStay(s, s');
    if step.SweepStarts? {
      forall w | w in s'.sweeps ensures SweeperInv(s', w) {
        assert w in s.sweeps ==> SweeperInv(s, w);
      }
    } else {
      SweepersStay(s, s');
    }
  }

  lemma NotifierStepKeepsInv(lag: nat, s: State, step: Step)
    requires Inv(s) && CanStep(lag, s, step) && (step.Read? || step.Publish? || step.PassOver?)
    ensures Inv(Next(lag, s, step))
  {
    var s' := Next(lag, s, step);
    var n0 := s.notifiers[step.i];
    assert NotifierInv(s, n0) && UpdateInv(s, n0.id);
    RecordsStay(s, s');
    SweepersStay(s, s');
    forall n | n in s'.notifiers ensures NotifierInv(s', n) {
      assert n == s'.notifiers[step.i] || n in s.notifiers;
    }
  }

  lemma MarkKeepsInv(lag: nat, s: State, i: nat)
    requires Inv(s) && CanStep(lag, s, Mark(i))
    ensures Inv(Next(lag, s, Mark(i)))
  {
    var s' := Next(lag, s, Mark(i));
    assert NotifierInv(s, s.notifiers[i]) && UpdateInv(s, s.notifiers[i].id);
    SweepersStay(s, s');
    forall n | n in s'.notifiers ensures NotifierInv(s', n) {
      assert n == s'.notifiers[i] || n in s.notifiers;
    }
    forall id | id in s'.updates ensures UpdateInv(s', id) {
      assert UpdateInv(s, id);
    }
    forall id | id in s'.markers ensures MarkerInv(s', id) {
      assert MarkerInv(s, id);
    }
  }

  lemma RemovalKeepsInv(lag: nat, s: State, step: Step)
    requires Inv(s) && CanStep(lag, s, step) && (step.Clear? || step.ExpireMarker? || step.Die?)
    ensures Inv(Next(lag, s, step))
  {
    var s' := Next(lag, s, step);
    if step.Clear? {
      assert NotifierInv(s, s.notifiers[step.i]);
    }
    if step.ExpireMarker? {
      assert MarkerInv(s, step.id);
    }
    RecordsStay(s, s');
    SweepersStay(s, s');
    forall n | n in s'.notifiers ensures NotifierInv(s', n) {
      assert NotifierInv(s, n);
    }
  }

  lemma OtherStepKeepsInv(lag: nat, s: State, step: Step)
    requires Inv(s) && CanStep(lag, s, step)
    requires step.Tick? || step.Silence? || step.HandOff? || step.Start?
    ensures Inv(Next(lag, s, step))
  {
    var s' := Next(lag, s, step);
    RecordsStay(s, s');
    SweepersStay(s, s');
    forall n | n in s'.notifiers ensures NotifierInv(s', n) {
      assert n in s.notifiers ==> NotifierInv(s, n);
    }
    if step.HandOff? {
      assert UpdateInv(s, step.id);
    }
  }

  lemma StepKeepsInv(lag: nat, s: State, step: Step)
    requires Inv(s) && CanStep(lag, s, step)
    ensures Inv(Next(lag, s, step))
  {
    match step
    case Record(id, before, message, receivedAt) => RecordKeepsInv(s, id, before, message, receivedAt);
    case SweepStarts => SweepKeepsInv(lag, s, step);
    case SweepHands(k, id) => HandsKeepsInv(lag, s, k, id);
    case SweepEnds(_) => SweepKeepsInv(lag, s, step);
    case SweepDies(_) => SweepKeepsInv(lag, s, step);
    case Read(_) => NotifierStepKeepsInv(lag, s, step);
    case Publish(_) => NotifierStepKeepsInv(lag, s, step);
    case PassOver(_) => NotifierStepKeepsInv(lag, s, step);
    case Mark(i) => MarkKeepsInv(lag, s, i);
    case Clear(_) | Die(_) | ExpireMarker(_) => RemovalKeepsInv(lag, s, step);
    case _ => OtherStepKeepsInv(lag, s, step);
  }

  lemma {:induction false} RunKeepsInv(lag: nat, s0: State, steps: seq<Step>, s: State)
    requires Inv(s0) && Run(lag, s0, steps, s)
    ensures Inv(s)
    decreases |steps|
  {
    if steps != [] {
      StepKeepsInv(lag, s0, steps[0]);
      RunKeepsInv(lag, Next(lag, s0, steps[0]), steps[1..], s);
    }
  }

  /** The message changed the call: some field reads differently after it. */
  ghost predicate ChangedTheCall(s: State, id: Id) {
    && id in s.updates
    && var u := s.updates[id];
       CadUpdates.Differs(u.before.content, CadUpdates.Receive(u.before, u.message).content)
  }

  lemma ChangeIsRecorded(s: State, id: Id)
    requires Inv(s)
    ensures ChangedTheCall(s, id) <==> IsRecorded(s, id)
  {
    if id in s.updates {
      assert UpdateInv(s, id);
      var u := s.updates[id];
      CadUpdates.RecordedExactly(u.before, u.message);
      assert CadUpdates.Receive(u.before, u.message).updates[u.message.hash] == u.kind;
    }
  }

  /** No notice is lost: in every run, whatever invocations and sweeps are lost, repeated or die,
      every message that changed the call is stamped as notified, or its marker is there for the sweep,
      or a week has passed; and a stamped one had its notice sent, unless its dispatch is a test or its
      record is gone. */
  lemma NoNoticeIsLost(lag: nat, s0: State, steps: seq<Step>, s: State, id: Id)
    requires Init(s0) && Run(lag, s0, steps, s) && ChangedTheCall(s, id)
    ensures s.updates[id].notifiedAt.Some? || id in s.pending || s.now >= s.updates[id].receivedAt + 604_800
    ensures s.updates[id].notifiedAt.Some? ==> id in s.told || id.dispatchId in s.silent
  {
    RunKeepsInv(lag, s0, steps, s);
    ChangeIsRecorded(s, id);
    assert UpdateInv(s, id);
  }

  /** Nobody is told of anything else: an older message or one that changes nothing reaches no notifier
      in any run, by its hand-off, by retries or by the sweep. */
  lemma OnlyChangesAreTold(lag: nat, s0: State, steps: seq<Step>, s: State, id: Id)
    requires Init(s0) && Run(lag, s0, steps, s)
    requires id in s.told || id in s.invoked || exists n :: n in s.notifiers && n.id == id
    ensures ChangedTheCall(s, id)
  {
    RunKeepsInv(lag, s0, steps, s);
    ChangeIsRecorded(s, id);
  }

  lemma DueIffReceivedBefore(m: Marker, id: Id, startedAt: nat)
    requires m.receivedAt <= startedAt || Fits(m.receivedAt, TIME_DIGITS)
    requires Fits(startedAt, TIME_DIGITS) && startedAt >= REDRIVE_AFTER_SECONDS
    ensures Due(m, id, startedAt) <==> m.receivedAt + REDRIVE_AFTER_SECONDS < startedAt
  {
    if m.receivedAt <= startedAt {
      FitsBelow(m.receivedAt, startedAt, TIME_DIGITS);
    }
    FitsBelow(startedAt - REDRIVE_AFTER_SECONDS, startedAt, TIME_DIGITS);
    SweptIffReceivedBefore(m.receivedAt, id, startedAt - REDRIVE_AFTER_SECONDS);
  }

  lemma {:induction false} FitsBelow(m: nat, n: nat, width: nat)
    requires m <= n && Fits(n, width)
    ensures Fits(m, width)
  {
    if width > 0 {
      FitsBelow(m / 10, n / 10, width - 1);
    }
  }

  lemma DueWhen(s: State, id: Id, startedAt: nat)
    requires Inv(s) && id in s.markers && REDRIVE_AFTER_SECONDS <= startedAt <= s.now
    ensures IsRecorded(s, id)
    ensures Due(s.markers[id], id, startedAt) <==> s.updates[id].receivedAt + REDRIVE_AFTER_SECONDS < startedAt
  {
    assert MarkerInv(s, id) && UpdateInv(s, id);
    FitsBelow(s.updates[id].receivedAt, s.now, TIME_DIGITS);
    FitsBelow(startedAt, s.now, TIME_DIGITS);
    DueIffReceivedBefore(s.markers[id], id, startedAt);
  }

  /** A sweep hands over only changes received two minutes before it started, and by its end has
      handed over every one of them that still owes its notice, up to a week, unless the marker was
      written so late that an ordinary read could miss it. */
  lemma SweepFindsTheRest(lag: nat, s0: State, steps: seq<Step>, s: State, k: nat, id: Id)
    requires Init(s0) && Run(lag, s0, steps, s) && CanStep(lag, s, SweepEnds(k))
    ensures id in s.sweeps[k].handed ==>
      ChangedTheCall(s, id) && s.updates[id].receivedAt + 120 < s.sweeps[k].startedAt
    ensures
      && ChangedTheCall(s, id) && s.updates[id].notifiedAt.None?
      && s.updates[id].receivedAt + 120 < s.sweeps[k].startedAt
      && s.now < s.updates[id].receivedAt + 604_800
      ==> id in s.markers && (s.markers[id].writtenAt + lag <= s.sweeps[k].startedAt ==> id in s.sweeps[k].handed)
  {
    RunKeepsInv(lag, s0, steps, s);
    ChangeIsRecorded(s, id);
    var w := s.sweeps[k];
    assert SweeperInv(s, w);
    if id in s.updates {
      assert UpdateInv(s, id);
    }
    if id in s.markers {
      DueWhen(s, id, w.startedAt);
    }
  }

  lemma RunStep(lag: nat, s: State, step: Step, rest: seq<Step>, end: State)
    requires CanStep(lag, s, step) && Run(lag, Next(lag, s, step), rest, end)
    ensures Run(lag, s, [step] + rest, end)
  {
    assert ([step] + rest)[1..] == rest;
  }

  /** One notifier that is not interrupted settles the update it was started for. */
  lemma StartSettles(lag: nat, s: State, id: Id) returns (steps: seq<Step>, end: State)
    requires id in s.invoked && id in s.updates && s.updates[id].notifiedAt.None?
    ensures |steps| == 5 && Run(lag, s, steps, end)
    ensures id in end.updates && end.updates[id].notifiedAt.Some? && id !in end.pending
    ensures end.silent == s.silent && Settled(end, id)
  {
    var n := |s.notifiers|;
    var s1 := Next(lag, s, Start(id, true));
    assert s1.notifiers[n] == Reading(id);
    var s2 := Next(lag, s1, Read(n));
    assert s2.notifiers[n] == Publishing(id);
    var rest: seq<Step>;
    rest, end := PublishedSettles(lag, s2, id);
    RunStep(lag, s1, Read(n), rest, end);
    RunStep(lag, s, Start(id, true), [Read(n)] + rest, end);
    steps := [Start(id, true)] + ([Read(n)] + rest);
  }

  lemma PublishedSettles(lag: nat, s: State, id: Id) returns (steps: seq<Step>, end: State)
    requires s.notifiers != [] && s.notifiers[|s.notifiers| - 1] == Publishing(id) && id in s.updates
    ensures |steps| == 3 && Run(lag, s, steps, end)
    ensures id in end.updates && end.updates[id].notifiedAt.Some? && id !in end.pending
    ensures end.silent == s.silent && Settled(end, id)
  {
    var n := |s.notifiers| - 1;
    var tell := if id.dispatchId in s.silent then PassOver(n) else Publish(n);
    var s1 := Next(lag, s, tell);
    assert s1.notifiers[n] == Marking(id);
    var s2 := Next(lag, s1, Mark(n));
    assert s2.notifiers[n] == Clearing(id);
    end := Next(lag, s2, Clear(n));
    steps := [tell] + ([Mark(n)] + ([Clear(n)] + []));
    RunStep(lag, s2, Clear(n), [], end);
    RunStep(lag, s1, Mark(n), [Clear(n)] + [], end);
    RunStep(lag, s, tell, [Mark(n)] + ([Clear(n)] + []), end);
  }

  /** From any state that owes a notice, a hand-off and one notifier that is not interrupted settle it. */
  lemma HandOffSettles(lag: nat, s0: State, past: seq<Step>, s: State, id: Id) returns (steps: seq<Step>, end: State)
    requires Init(s0) && Run(lag, s0, past, s) && ChangedTheCall(s, id) && s.updates[id].notifiedAt.None?
    ensures |steps| == 6 && steps[0] == HandOff(id) && Run(lag, s, steps, end)
    ensures id in end.updates && end.updates[id].notifiedAt.Some? && id !in end.pending
    ensures end.silent == s.silent && Settled(end, id)
  {
    RunKeepsInv(lag, s0, past, s);
    ChangeIsRecorded(s, id);
    var rest: seq<Step>;
    rest, end := StartSettles(lag, Next(lag, s, HandOff(id)), id);
    RunStep(lag, s, HandOff(id), rest, end);
    steps := [HandOff(id)] + rest;
  }

  /** The due markers that a sweep has still to come to are among `left`. */
  ghost predicate StillToCome(s: State, k: nat, left: set<Id>) {
    && Sweeping(s, k) && left <= s.markers.Keys
    && (forall id :: id in left ==> Due(s.markers[id], id, s.sweeps[k].startedAt))
    && (forall id :: id in s.pending && id in s.markers ==>
          (Due(s.markers[id], id, s.sweeps[k].startedAt) ==> id in left || id in s.sweeps[k].handed))
  }

  lemma OneLess(lag: nat, s: State, k: nat, left: set<Id>, id: Id)
    requires StillToCome(s, k, left) && id in left
    ensures CanStep(lag, s, SweepHands(k, id))
    ensures var s1 := Next(lag, s, SweepHands(k, id));
      && StillToCome(s1, k, left - {id})
      && s1.sweeps[k].handed == s.sweeps[k].handed + {id} && s1.invoked == s.invoked + {id}
  {
    var s1 := Next(lag, s, SweepHands(k, id));
    assert s1.sweeps[k].startedAt == s.sweeps[k].startedAt;
  }

  lemma AllOfThem(handed: set<Id>, invoked: set<Id>, left: set<Id>, id: Id)
    requires id in left
    ensures handed + {id} + (left - {id}) == handed + left && invoked + {id} + (left - {id}) == invoked + left
    ensures |left - {id}| == |left| - 1
  {
  }

  lemma NothingLeft(lag: nat, s: State, k: nat)
    requires StillToCome(s, k, {})
    ensures Run(lag, s, [], s) && CanStep(lag, s, SweepEnds(k))
  {
  }

  /** A sweep that is not interrupted comes to its end, and has then handed every due marker to a
      notifier. */
  lemma {:induction false} SweepCompletes(lag: nat, s: State, k: nat, left: set<Id>)
    returns (steps: seq<Step>, end: State)
    requires StillToCome(s, k, left)
    ensures Run(lag, s, steps, end) && CanStep(lag, end, SweepEnds(k)) && |steps| == |left|
    ensures end.sweeps[k].handed == s.sweeps[k].handed + left && end.invoked == s.invoked + left
    decreases |left|
  {
    if left == {} {
      NothingLeft(lag, s, k);
      steps, end := [], s;
    } else {
      var id :| id in left;
      OneLess(lag, s, k, left, id);
      var rest: seq<Step>;
      rest, end := SweepCompletes(lag, Next(lag, s, SweepHands(k, id)), k, left - {id});
      RunStep(lag, s, SweepHands(k, id), rest, end);
      steps := [SweepHands(k, id)] + rest;
      AllOfThem(s.sweeps[k].handed, s.invoked, left, id);
    }
  }

  /** From any state that owes a notice for two minutes, a sweep that comes to the marker and one
      notifier that is not interrupted settle it: the crew told, unless the dispatch is one that nobody
      is told about, the update stamped, the marker gone. */
  lemma SweepSettles(lag: nat, s0: State, past: seq<Step>, s: State, id: Id) returns (steps: seq<Step>, end: State)
    requires Init(s0) && Run(lag, s0, past, s) && ChangedTheCall(s, id) && s.updates[id].notifiedAt.None?
    requires s.updates[id].receivedAt + REDRIVE_AFTER_SECONDS < s.now
    requires s.now < s.updates[id].receivedAt + PENDING_NOTICE_RETENTION_SECONDS
    ensures |steps| == 7 && Run(lag, s, steps, end)
    ensures id in end.updates && end.updates[id].notifiedAt.Some? && id !in end.pending
    ensures end.silent == s.silent && Settled(end, id)
  {
    RunKeepsInv(lag, s0, past, s);
    ChangeIsRecorded(s, id);
    assert UpdateInv(s, id);
    DueWhen(s, id, s.now);
    var k := |s.sweeps|;
    var s1 := Next(lag, s, SweepStarts);
    assert s1.sweeps[k] == Sweeper(s.now, {});
    var s2 := Next(lag, s1, SweepHands(k, id));
    var rest: seq<Step>;
    rest, end := StartSettles(lag, s2, id);
    RunStep(lag, s1, SweepHands(k, id), rest, end);
    RunStep(lag, s, SweepStarts, [SweepHands(k, id)] + rest, end);
    steps := [SweepStarts] + ([SweepHands(k, id)] + rest);
  }
}
