/** Admission of CAD messages: the lock of an identity, and the markers that keep one signed message
    from being accepted twice. One accepted message pages; a later one for the same identity is an
    update of the dispatch the lock points at. */
module CadIngress {
  import opened MemberStatus
  import CadUpdates

  const INCIDENT_IDENTITY_SECONDS := 86_400
  const TEXT_IDENTITY_SECONDS := 600
  const EXPIRED_LOCK_RETENTION_SECONDS := 604_800

  /** An identity is an incident number, or the text itself where the CAD sends no number. */
  datatype Kind = Incident | Text

  /** How long an identity holds from the message's receipt. */
  function Window(kind: Kind): nat {
    if kind.Incident? then INCIDENT_IDENTITY_SECONDS else TEXT_IDENTITY_SECONDS
  }

  /** `at` is when the message was received, `markers` the replay tokens it uses up and for how
      long. */
  datatype Request = Request(
    identity: string,
    kind: Kind,
    at: int,
    markers: map<string, nat>,
    message: CadUpdates.Message)

  /** A lock written before locks carried `expiresAt` has none. */
  datatype Lock = Lock(dispatchId: nat, createdAt: int, expiresAt: Option<int>)

  /** A page, and the dispatch it is about. */
  datatype Alert = Alert(identity: string, at: int, kind: Kind, dispatchId: nat)

  /** A request that used up its markers, and when it committed. */
  datatype Use = Use(request: Request, committedAt: int)

  /** `alerts` and `uses` are histories. */
  datatype Store = Store(
    now: int,
    locks: map<string, Lock>,
    markers: map<string, int>,
    dispatches: map<nat, CadUpdates.Dispatch>,
    alerts: seq<Alert>,
    uses: seq<Use>)

  datatype Outcome = Created | Duplicate | Replay

  datatype Step =
    | Tick(seconds: nat)
    | Create(request: Request)
    | Update(request: Request)
    | ExpireLock(identity: string)
    | ExpireMarker(token: string)

  /** The condition the lock is written under, read the other way round. */
  predicate Holds(lock: Lock, r: Request) {
    match lock.expiresAt
    case Some(t) => r.at < t
    case None => r.at - Window(r.kind) < lock.createdAt
  }

  predicate Marked(s: Store, r: Request) {
    exists token :: token in r.markers && token in s.markers && r.at < s.markers[token]
  }

  /** The transaction's outcome: a used marker is reported before a held lock. */
  function Admission(s: Store, r: Request): Outcome {
    if Marked(s, r) then Replay
    else if r.identity in s.locks && Holds(s.locks[r.identity], r) then Duplicate
    else Created
  }

  function UseMarkers(s: Store, r: Request): Store {
    s.(markers := s.markers + (map token | token in r.markers :: r.at + r.markers[token]),
       uses := s.uses + [Use(r, s.now)])
  }

  /** A dispatch id no dispatch has yet. */
  function NewId(dispatches: map<nat, CadUpdates.Dispatch>): (id: nat)
    ensures id !in dispatches
  {
    NewIdAbove(dispatches.Keys, 0)
  }

  function NewIdAbove(ids: set<nat>, from: nat): (id: nat)
    ensures id !in ids && id >= from
    decreases |ids|
  {
    if from !in ids then from
    else
      var rest := NewIdAbove(ids - {from}, from + 1);
      rest
  }

  function CreateDispatch(s: Store, r: Request): Store {
    var id := NewId(s.dispatches);
    UseMarkers(s, r).(
      locks := s.locks[r.identity := Lock(id, r.at, Some(r.at + Window(r.kind)))],
      dispatches := s.dispatches[id := CadUpdates.Create(r.message)],
      alerts := s.alerts + [Alert(r.identity, r.at, r.kind, id)])
  }

  /** The dispatch the identity's lock points at, if the lock still holds for the request. */
  function LockedDispatch(s: Store, r: Request): Option<nat> {
    if r.identity !in s.locks then None
    else
      var lock := s.locks[r.identity];
      if lock.expiresAt.Some? && lock.expiresAt.value <= r.at then None else Some(lock.dispatchId)
  }

  function UpdateDispatch(s: Store, r: Request, id: nat): Store
    requires id in s.dispatches
  {
    if Marked(s, r) || r.message.hash in s.dispatches[id].seen then s
    else UseMarkers(s, r).(dispatches := s.dispatches[id := CadUpdates.Receive(s.dispatches[id], r.message)])
  }

  /** Messages are committed within the retention of expired locks, and never ahead of the clock. */
  predicate InTime(s: Store, r: Request) {
    r.at <= s.now <= r.at + EXPIRED_LOCK_RETENTION_SECONDS
  }

  predicate CanStep(s: Store, step: Step) {
    match step
    case Tick(_) => true
    case Create(r) => InTime(s, r)
    case Update(r) => InTime(s, r) && r.kind.Incident?
    case ExpireLock(identity) =>
      && identity in s.locks && s.locks[identity].expiresAt.Some?
      && s.locks[identity].expiresAt.value + EXPIRED_LOCK_RETENTION_SECONDS <= s.now
    case ExpireMarker(token) => token in s.markers && s.markers[token] <= s.now
  }

  function Next(s: Store, step: Step): Store
    requires CanStep(s, step)
  {
    match step
    case Tick(seconds) => s.(now := s.now + seconds)
    case Create(r) => if Admission(s, r).Created? then CreateDispatch(s, r) else s
    case Update(r) =>
      var id := LockedDispatch(s, r);
      if id.Some? && id.value in s.dispatches then UpdateDispatch(s, r, id.value) else s
    case ExpireLock(identity) => s.(locks := s.locks - {identity})
    case ExpireMarker(token) => s.(markers := s.markers - {token})
  }

  ghost predicate Run(s0: Store, steps: seq<Step>, s: Store)
    decreases |steps|
  {
    if steps == [] then s == s0
    else CanStep(s0, steps[0]) && Run(Next(s0, steps[0]), steps[1..], s)
  }

  predicate Start(s: Store) {
    s.alerts == [] && s.uses == [] && forall id :: id in s.locks ==> s.locks[id].dispatchId in s.dispatches
  }

  // ---- One page an identity and window

  /** The identity is locked at least as long as the alert's window, or that is long past. */
  predicate Locked(s: Store, a: Alert) {
    if a.identity in s.locks then
      s.locks[a.identity].expiresAt.Some? && s.locks[a.identity].expiresAt.value >= a.at + Window(a.kind)
    else
      s.now >= a.at + Window(a.kind) + EXPIRED_LOCK_RETENTION_SECONDS
  }

  predicate Used(s: Store, u: Use, token: string)
    requires token in u.request.markers
  {
    var until := u.request.at + u.request.markers[token];
    s.now >= until || (token in s.markers && s.markers[token] >= until)
  }

  predicate Inv(s: Store) {
    && (forall a :: a in s.alerts ==> Locked(s, a))
    && (forall i, j :: 0 <= i < j < |s.alerts| && s.alerts[i].identity == s.alerts[j].identity ==>
          s.alerts[j].at >= s.alerts[i].at + Window(s.alerts[i].kind))
    && (forall id :: id in s.locks ==> s.locks[id].dispatchId in s.dispatches)
  }

  predicate MarkersInv(s: Store) {
    && (forall u, token :: u in s.uses && token in u.request.markers ==> Used(s, u, token))
    && (forall i, j, token ::
          (0 <= i < j < |s.uses| && token in s.uses[i].request.markers && token in s.uses[j].request.markers) ==>
          s.uses[j].committedAt >= s.uses[i].request.at + s.uses[i].request.markers[token])
  }

  lemma CreateKeepsInv(s: Store, r: Request)
    requires Inv(s) && InTime(s, r) && Admission(s, r).Created?
    ensures Inv(CreateDispatch(s, r))
  {
    var s' := CreateDispatch(s, r);
    forall a | a in s.alerts && a.identity == r.identity ensures r.at >= a.at + Window(a.kind) {
      assert Locked(s, a);
    }
    forall a | a in s'.alerts ensures Locked(s', a) {
      if a in s.alerts {
        assert Locked(s, a);
      }
    }
    forall i | 0 <= i < |s.alerts| ensures s.alerts[i] in s.alerts {}
  }

  lemma StepKeepsInv(s: Store, step: Step)
    requires Inv(s) && CanStep(s, step)
    ensures Inv(Next(s, step))
  {
    match step
    case Create(r) =>
      if Admission(s, r).Created? {
        CreateKeepsInv(s, r);
      }
    case _ =>
      var s' := Next(s, step);
      assert s'.alerts == s.alerts;
      forall a | a in s'.alerts ensures Locked(s', a) {
        assert Locked(s, a);
      }
  }

  lemma UseKeepsMarkers(s: Store, r: Request)
    requires MarkersInv(s) && InTime(s, r) && !Marked(s, r)
    ensures MarkersInv(UseMarkers(s, r))
  {
    var s' := UseMarkers(s, r);
    forall u, token | u in s.uses && token in u.request.markers && token in r.markers
      ensures s.now >= u.request.at + u.request.markers[token]
    {
      assert Used(s, u, token);
    }
    forall u, token | u in s'.uses && token in u.request.markers ensures Used(s', u, token) {
      if u in s.uses {
        assert Used(s, u, token);
      }
    }
    forall i, j, token | 0 <= i < j < |s'.uses|
      && token in s'.uses[i].request.markers && token in s'.uses[j].request.markers
      ensures s'.uses[j].committedAt >= s'.uses[i].request.at + s'.uses[i].request.markers[token]
    {
      assert s.uses[i] in s.uses;
    }
  }

  lemma StepKeepsMarkers(s: Store, step: Step)
    requires MarkersInv(s) && CanStep(s, step)
    ensures MarkersInv(Next(s, step))
  {
    var s' := Next(s, step);
    if s'.uses == s.uses {
      forall u, token | u in s'.uses && token in u.request.markers ensures Used(s', u, token) {
        assert Used(s, u, token);
      }
    } else {
      UseKeepsMarkers(s, step.request);
      var s1 := UseMarkers(s, step.request);
      assert s'.uses == s1.uses && s'.markers == s1.markers && s'.now == s1.now;
    }
  }

  lemma {:induction false} RunKeepsInv(s0: Store, steps: seq<Step>, s: Store)
    requires Inv(s0) && MarkersInv(s0) && Run(s0, steps, s)
    ensures Inv(s) && MarkersInv(s)
    decreases |steps|
  {
    if steps != [] {
      StepKeepsInv(s0, steps[0]);
      StepKeepsMarkers(s0, steps[0]);
      RunKeepsInv(Next(s0, steps[0]), steps[1..], s);
    }
  }

  /** In every run two pages for one identity are at least that identity's window apart, however
      many copies of its messages arrive and in whatever order. */
  lemma OnePageAWindow(s0: Store, steps: seq<Step>, s: Store, i: nat, j: nat)
    requires Start(s0) && Run(s0, steps, s)
    requires i < j < |s.alerts| && s.alerts[i].identity == s.alerts[j].identity
    ensures s.alerts[j].at >= s.alerts[i].at + Window(s.alerts[i].kind)
  {
    RunKeepsInv(s0, steps, s);
  }

  /** No replay token is used twice within its lifetime, whether for a page or for an update. */
  lemma TokensAreUsedOnce(s0: Store, steps: seq<Step>, s: Store, i: nat, j: nat, token: string)
    requires Start(s0) && Run(s0, steps, s)
    requires i < j < |s.uses| && token in s.uses[i].request.markers && token in s.uses[j].request.markers
    ensures s.uses[j].committedAt >= s.uses[i].request.at + s.uses[i].request.markers[token]
  {
    RunKeepsInv(s0, steps, s);
  }

  // ---- Who is paged

  predicate Alerted(s: Store, identity: string) {
    exists a :: a in s.alerts && a.identity == identity
  }

  /** The identity is still the one of an alert, or of a lock from before the run: a lock without an
      `expiresAt` holds for the window of the request. */
  predicate Taken(s0: Store, s: Store, r: Request) {
    if Alerted(s, r.identity) then
      exists a :: a in s.alerts && a.identity == r.identity
        && r.at < a.at + if a.kind.Incident? then 86_400 else 600
    else
      && r.identity in s0.locks
      && match s0.locks[r.identity].expiresAt
         case Some(t) => r.at < t
         case None =>
           r.at < s0.locks[r.identity].createdAt
                  + if r.kind.Incident? then 86_400 else 600
  }

  /** Until when the token is used up, by an earlier message or from before the run. */
  ghost predicate UsedUntil(s0: Store, s: Store, token: string, until: int) {
    || (token in s0.markers && until == s0.markers[token])
    || exists u :: u in s.uses && token in u.request.markers && until == u.request.at + u.request.markers[token]
  }

  ghost predicate TokensFree(s0: Store, s: Store, r: Request) {
    forall token, until :: token in r.markers && UsedUntil(s0, s, token, until) ==> until <= r.at
  }

  ghost predicate TokensSpent(s0: Store, s: Store, r: Request) {
    exists token, until :: token in r.markers && UsedUntil(s0, s, token, until) && s.now < until
  }

  predicate IsLast(s: Store, i: nat)
    requires i < |s.alerts|
  {
    forall j :: i < j < |s.alerts| ==> s.alerts[j].identity != s.alerts[i].identity
  }

  function LockOf(a: Alert): Lock {
    Lock(a.dispatchId, a.at, Some(a.at + Window(a.kind)))
  }

  /** An identity's lock is that of its last alert, or the one from before the run. */
  ghost predicate LocksFrom(s0: Store, s: Store) {
    && (forall i :: 0 <= i < |s.alerts| && IsLast(s, i) && s.alerts[i].identity in s.locks ==>
          s.locks[s.alerts[i].identity] == LockOf(s.alerts[i]))
    && (forall id :: id in s.locks && !Alerted(s, id) ==> id in s0.locks && s.locks[id] == s0.locks[id])
    && (forall id :: id in s0.locks && id !in s.locks && !Alerted(s, id) ==>
          && s0.locks[id].expiresAt.Some?
          && s0.locks[id].expiresAt.value + EXPIRED_LOCK_RETENTION_SECONDS <= s.now)
  }

  /** A marker is the last of the uses of its token, as long as it is not over. */
  ghost predicate MarkersFrom(s0: Store, s: Store) {
    && (forall token :: token in s.markers ==> UsedUntil(s0, s, token, s.markers[token]))
    && (forall token, until :: UsedUntil(s0, s, token, until) && s.now < until ==>
          token in s.markers && s.markers[token] >= until)
  }

  lemma OneMoreAlert(s: Store, s': Store, a: Alert)
    requires s'.alerts == s.alerts + [a]
    ensures forall id :: Alerted(s', id) <==> Alerted(s, id) || id == a.identity
    ensures forall i :: 0 <= i < |s.alerts| && IsLast(s', i) ==>
      IsLast(s, i) && s.alerts[i].identity != a.identity
  {
    assert s'.alerts[|s.alerts|] == a && a in s'.alerts;
    forall b | b in s.alerts ensures b in s'.alerts {}
    forall i | 0 <= i < |s.alerts| && IsLast(s', i) ensures IsLast(s, i) && s.alerts[i].identity != a.identity {
      assert s'.alerts[|s.alerts|].identity != s'.alerts[i].identity;
      forall j | i < j < |s.alerts| ensures s.alerts[j].identity != s.alerts[i].identity {
        assert s'.alerts[j].identity != s'.alerts[i].identity;
      }
    }
  }

  lemma NewLockKeeps(s0: Store, s: Store, s': Store, a: Alert)
    requires LocksFrom(s0, s) && s'.now == s.now
    requires s'.alerts == s.alerts + [a] && s'.locks == s.locks[a.identity := LockOf(a)]
    ensures LocksFrom(s0, s')
  {
    OneMoreAlert(s, s', a);
    forall i | 0 <= i < |s'.alerts| && IsLast(s', i) && s'.alerts[i].identity in s'.locks
      ensures s'.locks[s'.alerts[i].identity] == LockOf(s'.alerts[i])
    {
      assert i < |s.alerts| ==> s'.alerts[i] == s.alerts[i];
    }
  }

  lemma CreateWrites(s: Store, r: Request, a: Alert)
    requires a == Alert(r.identity, r.at, r.kind, NewId(s.dispatches))
    ensures var s' := CreateDispatch(s, r);
      s'.now == s.now && s'.alerts == s.alerts + [a] && s'.locks == s.locks[a.identity := LockOf(a)]
  {
  }

  lemma CreateKeepsLocks(s0: Store, s: Store, r: Request)
    requires LocksFrom(s0, s)
    ensures LocksFrom(s0, CreateDispatch(s, r))
  {
    var s', a := CreateDispatch(s, r), Alert(r.identity, r.at, r.kind, NewId(s.dispatches));
    CreateWrites(s, r, a);
    NewLockKeeps(s0, s, s', a);
  }

  lemma UsedIsOver(s0: Store, s: Store, r: Request, token: string, until: int)
    requires MarkersFrom(s0, s) && InTime(s, r) && !Marked(s, r)
    requires token in r.markers && UsedUntil(s0, s, token, until)
    ensures until <= s.now
  {
  }

  lemma UseKeepsMarkersFrom(s0: Store, s: Store, r: Request)
    requires MarkersFrom(s0, s) && InTime(s, r) && !Marked(s, r)
    ensures MarkersFrom(s0, UseMarkers(s, r))
  {
    var s' := UseMarkers(s, r);
    var use := Use(r, s.now);
    assert s'.uses[|s.uses|] == use && use in s'.uses;
    forall token, until ensures UsedUntil(s0, s', token, until) <==>
      UsedUntil(s0, s, token, until) || (token in r.markers && until == r.at + r.markers[token])
    {
      if u :| u in s.uses && token in u.request.markers && until == u.request.at + u.request.markers[token] {
        assert u in s'.uses;
      }
    }
    forall token, until | UsedUntil(s0, s', token, until) && s'.now < until
      ensures token in s'.markers && s'.markers[token] >= until
    {
      if token !in r.markers {
        assert UsedUntil(s0, s, token, until);
      } else if UsedUntil(s0, s, token, until) {
        UsedIsOver(s0, s, r, token, until);
      }
    }
  }

  lemma SameAlertsKeepLocks(s0: Store, s: Store, s': Store, gone: set<string>)
    requires LocksFrom(s0, s) && s'.alerts == s.alerts && s'.locks == s.locks - gone && s'.now >= s.now
    requires forall id :: id in gone && id in s.locks ==>
      && s.locks[id].expiresAt.Some? && s.locks[id].expiresAt.value + EXPIRED_LOCK_RETENTION_SECONDS <= s.now
    ensures LocksFrom(s0, s')
  {
    forall id ensures Alerted(s', id) <==> Alerted(s, id) {}
    forall i | 0 <= i < |s.alerts| ensures IsLast(s', i) <==> IsLast(s, i) {}
    forall id | id in s0.locks && id !in s'.locks && !Alerted(s', id)
      ensures s0.locks[id].expiresAt.Some?
        && s0.locks[id].expiresAt.value + EXPIRED_LOCK_RETENTION_SECONDS <= s'.now
    {
      if id in s.locks {
        assert id in gone;
      }
    }
  }

  lemma StepKeepsLocksFrom(s0: Store, s: Store, step: Step)
    requires LocksFrom(s0, s) && CanStep(s, step)
    ensures LocksFrom(s0, Next(s, step))
  {
    if step.Create? && Admission(s, step.request).Created? {
      CreateKeepsLocks(s0, s, step.request);
    } else {
      var gone := if step.ExpireLock? then {step.identity} else {};
      assert s.locks - {} == s.locks;
      SameAlertsKeepLocks(s0, s, Next(s, step), gone);
    }
  }

  lemma SameUses(s0: Store, s: Store, s': Store)
    requires s'.uses == s.uses
    ensures forall token, until :: UsedUntil(s0, s', token, until) <==> UsedUntil(s0, s, token, until)
  {
  }

  lemma StepKeepsMarkersFrom(s0: Store, s: Store, step: Step)
    requires MarkersFrom(s0, s) && CanStep(s, step)
    ensures MarkersFrom(s0, Next(s, step))
  {
    var s' := Next(s, step);
    if s'.uses == s.uses {
      SameUses(s0, s, s');
    } else {
      var s1 := UseMarkers(s, step.request);
      UseKeepsMarkersFrom(s0, s, step.request);
      SameUses(s0, s1, s');
      assert s'.markers == s1.markers && s'.now == s1.now;
    }
  }

  lemma {:induction false} RunKeepsFrom(s0: Store, steps: seq<Step>, s: Store, s1: Store)
    requires LocksFrom(s0, s1) && MarkersFrom(s0, s1) && Run(s1, steps, s)
    ensures LocksFrom(s0, s) && MarkersFrom(s0, s)
    decreases |steps|
  {
    if steps != [] {
      StepKeepsLocksFrom(s0, s1, steps[0]);
      StepKeepsMarkersFrom(s0, s1, steps[0]);
      RunKeepsFrom(s0, steps[1..], s, Next(s1, steps[0]));
    }
  }

  lemma {:induction false} LastAlert(s: Store, identity: string, n: nat) returns (i: nat)
    requires n <= |s.alerts| && forall j :: n <= j < |s.alerts| ==> s.alerts[j].identity != identity
    requires Alerted(s, identity)
    ensures i < |s.alerts| && s.alerts[i].identity == identity && IsLast(s, i)
  {
    if n == 0 {
      assert false;
    } else if s.alerts[n - 1].identity == identity {
      i := n - 1;
    } else {
      i := LastAlert(s, identity, n - 1);
    }
  }

  lemma AlertedIsTaken(s0: Store, s: Store, r: Request)
    requires Inv(s) && LocksFrom(s0, s) && InTime(s, r) && Alerted(s, r.identity)
    ensures r.identity in s.locks && Holds(s.locks[r.identity], r) <==> Taken(s0, s, r)
  {
    var i := LastAlert(s, r.identity, |s.alerts|);
    var last := s.alerts[i];
    assert last in s.alerts && Locked(s, last);
    if r.identity in s.locks && Holds(s.locks[r.identity], r) {
      assert s.locks[r.identity] == LockOf(last);
    }
    if Taken(s0, s, r) {
      var a :| a in s.alerts && a.identity == r.identity && r.at < a.at + Window(a.kind);
      assert Locked(s, a);
    }
  }

  lemma UnalertedIsTaken(s0: Store, s: Store, r: Request)
    requires LocksFrom(s0, s) && InTime(s, r) && !Alerted(s, r.identity)
    ensures r.identity in s.locks && Holds(s.locks[r.identity], r) <==> Taken(s0, s, r)
  {
  }

  /** The lock says about a request what the alerts say. */
  lemma LockIsTaken(s0: Store, s: Store, r: Request)
    requires Inv(s) && LocksFrom(s0, s) && InTime(s, r)
    ensures r.identity in s.locks && Holds(s.locks[r.identity], r) <==> Taken(s0, s, r)
  {
    if Alerted(s, r.identity) {
      AlertedIsTaken(s0, s, r);
    } else {
      UnalertedIsTaken(s0, s, r);
    }
  }

  lemma MarkedWhen(s0: Store, s: Store, r: Request)
    requires MarkersFrom(s0, s) && InTime(s, r)
    ensures TokensFree(s0, s, r) ==> !Marked(s, r)
    ensures TokensSpent(s0, s, r) ==> Marked(s, r)
  {
    if Marked(s, r) {
      var token :| token in r.markers && token in s.markers && r.at < s.markers[token];
      assert UsedUntil(s0, s, token, s.markers[token]);
    }
    if TokensSpent(s0, s, r) {
      var token, until :| token in r.markers && UsedUntil(s0, s, token, until) && s.now < until;
      assert token in s.markers && r.at < s.markers[token];
    }
  }

  lemma Reached(s0: Store, steps: seq<Step>, s: Store)
    requires Start(s0) && Run(s0, steps, s)
    ensures Inv(s) && LocksFrom(s0, s) && MarkersFrom(s0, s)
  {
    RunKeepsInv(s0, steps, s);
    RunKeepsFrom(s0, steps, s, s0);
  }

  /** The message paged: one more alert, about a new dispatch that holds its text; its tokens are used
      up, and nothing else changed. */
  ghost predicate Paged(s: Store, s': Store, r: Request, id: nat) {
    && id !in s.dispatches && id in s'.dispatches
    && s'.alerts == s.alerts + [Alert(r.identity, r.at, r.kind, id)]
    && s'.uses == s.uses + [Use(r, s.now)] && s'.now == s.now
    && s'.dispatches[id].content == r.message.content && s'.dispatches[id].hash == r.message.hash
    && s'.dispatches[id].parse == r.message.parse && s'.dispatches[id].time == r.message.time
    && s'.dispatches[id].seen == {r.message.hash} && s'.dispatches[id].updates == map[]
    && forall other :: other != id ==>
         (other in s'.dispatches <==> other in s.dispatches)
         && (other in s.dispatches ==> s'.dispatches[other] == s.dispatches[other])
  }

  lemma OverIsNotUpdated(s0: Store, s: Store, r: Request)
    requires Inv(s) && LocksFrom(s0, s) && InTime(s, r) && r.kind.Incident?
    requires Alerted(s, r.identity) && !(r.identity in s.locks && Holds(s.locks[r.identity], r))
    ensures Next(s, Update(r)) == s
  {
    var i := LastAlert(s, r.identity, |s.alerts|);
    assert r.identity in s.locks ==> s.locks[r.identity] == LockOf(s.alerts[i]);
    assert LockedDispatch(s, r) == None;
  }

  lemma FreeIsPaged(s: Store, r: Request)
    requires InTime(s, r) && !Marked(s, r) && !(r.identity in s.locks && Holds(s.locks[r.identity], r))
    ensures Paged(s, Next(s, Create(r)), r, NewId(s.dispatches))
  {
  }

  /** Who is paged, over all runs and told by what happened: a message pages when its identity has no
      alert that still stands and none of its tokens was used up; and while one does, or a token of it
      is still spent, it changes nothing. */
  lemma PagesExactly(s0: Store, steps: seq<Step>, s: Store, r: Request)
    requires Start(s0) && Run(s0, steps, s) && InTime(s, r)
    ensures TokensFree(s0, s, r) && !Taken(s0, s, r) ==> exists id :: Paged(s, Next(s, Create(r)), r, id)
    ensures Taken(s0, s, r) || TokensSpent(s0, s, r) ==> Next(s, Create(r)) == s
    ensures r.kind.Incident? && TokensSpent(s0, s, r) ==> Next(s, Update(r)) == s
    ensures r.kind.Incident? && Alerted(s, r.identity) && !Taken(s0, s, r) ==> Next(s, Update(r)) == s
  {
    Reached(s0, steps, s);
    LockIsTaken(s0, s, r);
    MarkedWhen(s0, s, r);
    if r.kind.Incident? && Alerted(s, r.identity) && !Taken(s0, s, r) {
      OverIsNotUpdated(s0, s, r);
    }
    if TokensFree(s0, s, r) && !Taken(s0, s, r) {
      FreeIsPaged(s, r);
    }
  }

  /** The message updated the dispatch: its tokens are used up, and nothing else changed. */
  predicate Updated(s: Store, s': Store, r: Request, id: nat) {
    && id in s.dispatches
    && s' == s.(dispatches := s.dispatches[id := CadUpdates.Receive(s.dispatches[id], r.message)],
                markers := s'.markers, uses := s.uses + [Use(r, s.now)])
    && r.message.hash in s'.dispatches[id].seen
  }

  lemma HeldLockIsUpdated(s: Store, r: Request, id: nat)
    requires Inv(s) && InTime(s, r) && r.kind.Incident? && !Marked(s, r)
    requires r.identity in s.locks && Holds(s.locks[r.identity], r) && id == s.locks[r.identity].dispatchId
    ensures id in s.dispatches
    ensures
      if r.message.hash in s.dispatches[id].seen then Next(s, Update(r)) == s
      else Updated(s, Next(s, Update(r)), r, id)
  {
    assert LockedDispatch(s, r) == Some(id);
    assert Next(s, Update(r)) == UpdateDispatch(s, r, id);
  }

  /** A message that pages nobody because its identity's alert still stands is not lost: unless the
      dispatch has seen its text, it updates the dispatch of the identity's last alert. */
  lemma DuplicatesAreRecorded(s0: Store, steps: seq<Step>, s: Store, r: Request) returns (id: nat)
    requires Start(s0) && Run(s0, steps, s) && InTime(s, r) && r.kind.Incident?
    requires Taken(s0, s, r) && TokensFree(s0, s, r)
    ensures id in s.dispatches
    ensures
      if r.message.hash in s.dispatches[id].seen then Next(s, Update(r)) == s
      else Updated(s, Next(s, Update(r)), r, id)
    ensures forall i :: 0 <= i < |s.alerts| && s.alerts[i].identity == r.identity && IsLast(s, i) ==>
      id == s.alerts[i].dispatchId
    ensures !Alerted(s, r.identity) ==> id == s0.locks[r.identity].dispatchId
  {
    Reached(s0, steps, s);
    LockIsTaken(s0, s, r);
    MarkedWhen(s0, s, r);
    id := s.locks[r.identity].dispatchId;
    HeldLockIsUpdated(s, r, id);
    forall i | 0 <= i < |s.alerts| && s.alerts[i].identity == r.identity && IsLast(s, i)
      ensures id == s.alerts[i].dispatchId
    {
      assert s.alerts[i] in s.alerts;
    }
  }
}
