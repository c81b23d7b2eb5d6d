/** A member's sessions over time: status changes, tokens minted through the pre-token trigger,
    revocation markers, and requests checked by one authorizer instance. Times are milliseconds
    unless a name says seconds.

    Reads are not instant and mostly not consistent. A marker read starts, samples the stored marker
    at some moment, and finishes later; other requests, writes and evictions happen in between. An
    ordinary sample, and every sample of the trigger, may still give a value that was overwritten
    lately; only the reads forced on one route are consistent. */
module Sessions {
  import opened MemberStatus
  import PreTokenGeneration
  import opened RevocationCheck

  const ACCESS_TOKEN_SECONDS := 3600
  const ACCESS_TOKEN_MS := 3_600_000

  /** The longest a marker read takes, the longest an overwritten value is still read, and the
      longest from the trigger's read to the token's issue. */
  datatype Timing = Timing(readBudget: nat, lag: nat, triggerBudget: nat)

  /** A value a row was given, and when. */
  datatype Version<V> = Version(value: V, since: int)

  function Current<V>(versions: seq<Version<V>>): V
    requires versions != []
  {
    versions[|versions| - 1].value
  }

  /** What a read that is not consistent may give: the current value, or one overwritten no more than
      `lag` ago. */
  predicate Visible<V(==)>(versions: seq<Version<V>>, value: V, now: int, lag: nat) {
    exists i :: 0 <= i < |versions| && versions[i].value == value
      && (i + 1 < |versions| ==> now <= versions[i + 1].since + lag)
  }

  /** A check waiting for the marker; `sample` is what the store gave once it has. */
  datatype Read = Read(
    startedAt: int,
    issuedAt: int,
    forced: bool,
    failOpen: bool,
    cached: Option<Entry>,
    sample: Option<Option<int>>)

  /** `deptId` and `sub` are the login's attributes; `statuses` and `markers` what the member's row and
      marker held over time, a marker in seconds; `signIns` when the trigger let each unfinished
      sign-in pass; `tokens` the issue time of each access token; `entry` the cache's entry. */
  datatype State = State(
    deptId: string,
    sub: string,
    now: int,
    statuses: seq<Version<Status>>,
    markers: seq<Version<Option<int>>>,
    signIns: seq<int>,
    tokens: set<int>,
    entry: Option<Entry>,
    pending: seq<Read>)

  datatype Step =
    | Tick(ms: nat)
    | SetStatus(status: Status)
    | SignIn(lookup: PreTokenGeneration.Lookup)
    | Issue(i: nat)
    | WriteMarker(revokedAt: int)
    | Evict
    | Request(minted: int, forceRead: bool, failOpen: bool)
    | Sample(i: nat, seen: Option<int>)
    | Finish(i: nat, ok: bool)

  function IssuedAt(minted: int): int {
    minted / 1000
  }

  /** The verifier's expiry check, made before the revocation check. */
  predicate Unexpired(minted: int, now: int) {
    now <= (IssuedAt(minted) + ACCESS_TOKEN_SECONDS) * 1000
  }

  /** The trigger's lookup fails, or gives a status its read may see. */
  predicate LookedUp(t: Timing, s: State, lookup: PreTokenGeneration.Lookup) {
    lookup.LookupFailed? || (lookup.Found? && Visible(s.statuses, lookup.status, s.now, t.lag))
  }

  predicate TriggerRefuses(s: State, lookup: PreTokenGeneration.Lookup) {
    PreTokenGeneration.Refuses(Some(s.deptId), Some(s.sub), true, lookup)
  }

  /** No read and no sign-in outlives its budget: time cannot pass it by. */
  predicate InBudget(t: Timing, s: State, ms: nat) {
    && (forall r :: r in s.pending ==> s.now + ms <= r.startedAt + t.readBudget)
    && (forall started :: started in s.signIns ==> s.now + ms <= started + t.triggerBudget)
  }

  predicate CanStep(t: Timing, s: State, step: Step) {
    && s.statuses != [] && s.markers != []
    && match step
       case Tick(ms) => InBudget(t, s, ms)
       case SetStatus(_) | Evict => true
       case SignIn(lookup) => LookedUp(t, s, lookup) && !TriggerRefuses(s, lookup)
       case Issue(i) => i < |s.signIns|
       case WriteMarker(revokedAt) => revokedAt * 1000 <= s.now
       case Request(minted, _, _) => minted in s.tokens && Unexpired(minted, s.now)
       case Sample(i, seen) =>
         && i < |s.pending| && s.pending[i].sample.None?
         && if s.pending[i].forced then seen == Current(s.markers) else Visible(s.markers, seen, s.now, t.lag)
       case Finish(i, ok) => i < |s.pending| && (ok ==> s.pending[i].sample.Some?)
  }

  function Next(t: Timing, s: State, step: Step): State
    requires CanStep(t, s, step)
  {
    match step
    case Tick(ms) => s.(now := s.now + ms)
    case SetStatus(status) => s.(statuses := s.statuses + [Version(status, s.now)])
    case SignIn(_) => s.(signIns := s.signIns + [s.now])
    case Issue(i) => s.(signIns := s.signIns[..i] + s.signIns[i + 1..], tokens := s.tokens + {s.now})
    case WriteMarker(revokedAt) => s.(markers := s.markers + [Version(Some(revokedAt), s.now)])
    case Evict => s.(entry := None)
    case Request(minted, forceRead, failOpen) =>
      if Usable(s.entry, forceRead, s.now) then s
      else s.(pending := s.pending + [Read(s.now, IssuedAt(minted), forceRead, failOpen, s.entry, None)])
    case Sample(i, seen) => s.(pending := s.pending[i := s.pending[i].(sample := Some(seen))])
    case Finish(i, ok) =>
      var r := s.pending[i];
      s.(pending := s.pending[..i] + s.pending[i + 1..],
         entry := Some(if ok then EntryAfterRead(r.sample.value, s.now) else EntryAfterFailure(r.cached, s.now)))
  }

  /** The request the step lets through, by its token's issue time. */
  function Admitted(t: Timing, s: State, step: Step): Option<int>
    requires CanStep(t, s, step)
  {
    match step
    case Request(minted, forceRead, failOpen) =>
      if Usable(s.entry, forceRead, s.now) && Admits(FromCache(s.entry.value, IssuedAt(minted)), failOpen)
      then Some(IssuedAt(minted)) else None
    case Finish(i, ok) =>
      var r := s.pending[i];
      var d := if ok then Decide(r.sample.value, r.issuedAt) else AfterFailure(r.cached, r.issuedAt);
      if Admits(d, r.failOpen) then Some(r.issuedAt) else None
    case _ => None
  }

  predicate Past<V>(versions: seq<Version<V>>, now: int) {
    forall i :: 0 <= i < |versions| ==> versions[i].since <= now
  }

  /** The login's attributes name a member row, which has a status; no one has signed in yet. */
  predicate Init(s: State) {
    && PreTokenGeneration.NamesRow(Some(s.deptId), Some(s.sub), true)
    && s.statuses != [] && s.markers != [] && Past(s.statuses, s.now) && Past(s.markers, s.now)
    && s.signIns == [] && s.tokens == {} && s.entry == None && s.pending == []
  }

  /** A run: a state before each step and one after the last. */
  ghost predicate Run(t: Timing, states: seq<State>, steps: seq<Step>) {
    && |states| == |steps| + 1
    && Init(states[0])
    && forall k :: 0 <= k < |steps| ==> CanStep(t, states[k], steps[k]) && states[k + 1] == Next(t, states[k], steps[k])
  }

  /** What the last known marker says of a request; where none is known, only routes that fail open let
      it through. */
  predicate LetsThrough(known: Option<Entry>, issuedAt: int, failOpen: bool) {
    if known.Some? && known.value.known then known.value.revokedAt.Some? ==> issuedAt > known.value.revokedAt.value
    else failOpen
  }

  /** Which requests get through, with the store readable or not. */
  lemma AdmittedExactly(t: Timing, s: State, step: Step)
    requires CanStep(t, s, step)
    ensures match step
      case Finish(i, true) =>
        Admitted(t, s, step) ==
          var marker, issuedAt := s.pending[i].sample.value, s.pending[i].issuedAt;
          if marker.Some? && issuedAt <= marker.value then None else Some(issuedAt)
      case Finish(i, false) =>
        var r := s.pending[i];
        Admitted(t, s, step) == if LetsThrough(r.cached, r.issuedAt, r.failOpen) then Some(r.issuedAt) else None
      case Request(minted, forceRead, failOpen) =>
        Admitted(t, s, step) ==
          if s.entry.Some? && !forceRead && s.now < s.entry.value.expiresAtMs
            && LetsThrough(s.entry, minted / 1000, failOpen) then Some(minted / 1000) else None
      case _ => Admitted(t, s, step) == None
  {
  }

  // ---- What holds in every reachable state

  /** Entries expire within the cache's lifetimes, no read or sign-in has outlived its budget, and
      nothing is from the future. */
  predicate Timely(t: Timing, s: State) {
    && (s.entry.Some? ==>
          s.entry.value.expiresAtMs <= s.now + (if s.entry.value.known then CACHE_TTL_MS else FAILURE_BACKOFF_MS))
    && (forall r :: r in s.pending ==>
          && r.startedAt <= s.now <= r.startedAt + t.readBudget
          && r.issuedAt <= IssuedAt(s.now)
          && r.startedAt <= (r.issuedAt + ACCESS_TOKEN_SECONDS) * 1000)
    && (forall started :: started in s.signIns ==> started <= s.now <= started + t.triggerBudget)
    && (forall minted :: minted in s.tokens ==> minted <= s.now)
    && s.statuses != [] && s.markers != [] && Past(s.statuses, s.now) && Past(s.markers, s.now)
    && PreTokenGeneration.NamesRow(Some(s.deptId), Some(s.sub), true)
  }

  lemma Without<T>(xs: seq<T>, i: nat)
    requires i < |xs|
    ensures forall x :: x in xs[..i] + xs[i + 1..] ==> x in xs
  {
  }

  lemma SignInsLeft(t: Timing, s: State, i: nat)
    requires CanStep(t, s, Issue(i))
    ensures forall started :: started in Next(t, s, Issue(i)).signIns ==> started in s.signIns
  {
    var left := s.signIns[..i] + s.signIns[i + 1..];
    forall started | started in left ensures started in s.signIns {
      var k :| 0 <= k < |left| && left[k] == started;
      assert started == s.signIns[if k < i then k else k + 1];
    }
  }

  lemma Replaced<T>(xs: seq<T>, i: nat, x: T)
    requires i < |xs|
    ensures forall y :: y in xs[i := x] ==> y == x || y in xs
  {
  }

  lemma CheckKeepsTimely(t: Timing, s: State, step: Step)
    requires Timely(t, s) && CanStep(t, s, step) && (step.Request? || step.Sample? || step.Finish?)
    ensures Timely(t, Next(t, s, step))
  {
    match step
    case Finish(i, _) => Without(s.pending, i);
    case Sample(i, seen) =>
      assert s.pending[i] in s.pending;
      Replaced(s.pending, i, s.pending[i].(sample := Some(seen)));
    case Request(minted, _, _) => assert minted in s.tokens;
  }

  lemma StepKeepsTimely(t: Timing, s: State, step: Step)
    requires Timely(t, s) && CanStep(t, s, step)
    ensures Timely(t, Next(t, s, step))
  {
    match step
    case Request(_, _, _) => CheckKeepsTimely(t, s, step);
    case Sample(_, _) => CheckKeepsTimely(t, s, step);
    case Finish(_, _) => CheckKeepsTimely(t, s, step);
    case Issue(i) => SignInsLeft(t, s, i);
    case _ =>
  }

  lemma {:induction false} RunIsTimely(t: Timing, states: seq<State>, steps: seq<Step>, k: nat)
    requires Run(t, states, steps) && k < |states|
    ensures Timely(t, states[k])
    decreases k
  {
    if k > 0 {
      RunIsTimely(t, states, steps, k - 1);
      StepKeepsTimely(t, states[k - 1], steps[k - 1]);
    }
  }

  // ---- One hour, whatever the revocation store does

  /** From step `j` on the member's row stays inactive and the trigger's lookups succeed. */
  ghost predicate InactiveFrom(states: seq<State>, steps: seq<Step>, j: nat)
    requires |states| == |steps| + 1
  {
    && (forall k :: j <= k < |states| ==> states[k].statuses != [] && Inactive(Current(states[k].statuses)))
    && (forall k :: j <= k < |steps| ==> !(steps[k].SignIn? && steps[k].lookup.LookupFailed?))
  }

  /** A status that is not inactive was overwritten by `since`, and every sign-in and token goes back to
      a read that could still see such a one. */
  predicate Closing(t: Timing, since: int, s: State) {
    && (forall i :: 0 <= i < |s.statuses| && !Inactive(s.statuses[i].value) ==>
          i + 1 < |s.statuses| && s.statuses[i + 1].since <= since)
    && (forall started :: started in s.signIns ==> started <= since + t.lag)
    && (forall minted :: minted in s.tokens ==> minted <= since + t.lag + t.triggerBudget)
    && (forall r :: r in s.pending ==> r.issuedAt <= IssuedAt(since + t.lag + t.triggerBudget))
  }

  lemma ClosingBegins(t: Timing, s: State)
    requires Timely(t, s) && Inactive(Current(s.statuses))
    ensures Closing(t, s.now, s)
  {
  }

  lemma StepKeepsClosing(t: Timing, since: int, s: State, step: Step)
    requires Timely(t, s) && Closing(t, since, s) && CanStep(t, s, step)
    requires Inactive(Current(Next(t, s, step).statuses)) && !(step.SignIn? && step.lookup.LookupFailed?)
    ensures Closing(t, since, Next(t, s, step))
  {
    match step
    case Request(_, _, _) => CheckKeepsClosing(t, since, s, step);
    case Sample(_, _) => CheckKeepsClosing(t, since, s, step);
    case Finish(_, _) => CheckKeepsClosing(t, since, s, step);
    case Issue(i) => IssueKeepsClosing(t, since, s, i);
    case SignIn(lookup) => SignInIsNotLate(t, since, s, lookup);
    case _ =>
  }

  lemma IssueKeepsClosing(t: Timing, since: int, s: State, i: nat)
    requires Timely(t, s) && Closing(t, since, s) && CanStep(t, s, Issue(i))
    ensures Closing(t, since, Next(t, s, Issue(i)))
  {
    SignInsLeft(t, s, i);
    assert s.signIns[i] in s.signIns;
    assert s.now <= s.signIns[i] + t.triggerBudget <= since + t.lag + t.triggerBudget;
    assert Next(t, s, Issue(i)).tokens == s.tokens + {s.now};
  }

  lemma CheckKeepsClosing(t: Timing, since: int, s: State, step: Step)
    requires Timely(t, s) && Closing(t, since, s) && CanStep(t, s, step)
    requires step.Request? || step.Sample? || step.Finish?
    ensures Closing(t, since, Next(t, s, step))
  {
    match step
    case Finish(i, _) => Without(s.pending, i);
    case Sample(i, seen) =>
      assert s.pending[i] in s.pending;
      Replaced(s.pending, i, s.pending[i].(sample := Some(seen)));
    case Request(minted, _, _) => assert minted in s.tokens;
  }

  /** A sign-in passes only on a read that still saw a status that is not inactive. */
  lemma SignInIsNotLate(t: Timing, since: int, s: State, lookup: PreTokenGeneration.Lookup)
    requires Timely(t, s) && Closing(t, since, s) && CanStep(t, s, SignIn(lookup)) && !lookup.LookupFailed?
    ensures s.now <= since + t.lag
  {
    assert !Inactive(lookup.status);
  }

  lemma {:induction false} RunKeepsClosing(t: Timing, states: seq<State>, steps: seq<Step>, j: nat, k: nat)
    requires Run(t, states, steps) && j <= k < |states| && InactiveFrom(states, steps, j)
    ensures Closing(t, states[j].now, states[k])
    decreases k
  {
    if j < k {
      RunKeepsClosing(t, states, steps, j, k - 1);
      RunIsTimely(t, states, steps, k - 1);
      assert states[k] == Next(t, states[k - 1], steps[k - 1]);
      assert states[k].statuses != [] && Inactive(Current(states[k].statuses));
      assert !(steps[k - 1].SignIn? && steps[k - 1].lookup.LookupFailed?);
      StepKeepsClosing(t, states[j].now, states[k - 1], steps[k - 1]);
    } else {
      RunIsTimely(t, states, steps, k);
      ClosingBegins(t, states[k]);
    }
  }

  /** The hour, what the trigger's read may lag, and what the trigger may take. */
  function LastRequest(t: Timing): nat {
    ACCESS_TOKEN_MS + t.lag + t.triggerBudget
  }

  /** No request is even taken up later than that after the member became inactive, on either
      authorizer and with the revocation store readable or not. */
  lemma InactiveMemberIsOutWithinTheHour(t: Timing, states: seq<State>, steps: seq<Step>, j: nat, k: nat)
    requires Run(t, states, steps) && j <= k < |steps| && InactiveFrom(states, steps, j)
    requires states[k].now > states[j].now + LastRequest(t)
    ensures !steps[k].Request?
  {
    RunKeepsClosing(t, states, steps, j, k);
    assert CanStep(t, states[k], steps[k]);
  }

  /** And none is let through once the reads then under way are over as well. */
  lemma NothingIsAdmittedAfterTheHour(t: Timing, states: seq<State>, steps: seq<Step>, j: nat, k: nat)
    requires Run(t, states, steps) && j <= k < |steps| && InactiveFrom(states, steps, j)
    requires states[k].now > states[j].now + LastRequest(t) + t.readBudget
    ensures CanStep(t, states[k], steps[k]) && Admitted(t, states[k], steps[k]) == None
  {
    InactiveMemberIsOutWithinTheHour(t, states, steps, j, k);
    if steps[k].Finish? {
      var r := states[k].pending[steps[k].i];
      assert r in states[k].pending;
      RunIsTimely(t, states, steps, k);
      RunKeepsClosing(t, states, steps, j, k);
    }
  }

  /** In every run, a member inactive from some step on is let through nothing later than `bound`. */
  ghost predicate OutWithin(t: Timing, bound: int) {
    forall states: seq<State>, steps: seq<Step>, j: nat, k: nat ::
      && Run(t, states, steps) && j <= k < |steps| && InactiveFrom(states, steps, j)
      && CanStep(t, states[k], steps[k]) && Admitted(t, states[k], steps[k]).Some?
      ==> states[k].now <= states[j].now + bound
  }

  /** A sign-in whose status read lags: the row turns inactive at `ChangeAt`, the trigger still reads
      ACTIVE, takes all its time, and the token's last request takes a whole marker read. */
  function ChangeAt(t: Timing): nat {
    999 - (t.lag + t.triggerBudget + 999) % 1000
  }

  function MintedAt(t: Timing): nat {
    ChangeAt(t) + t.lag + t.triggerBudget
  }

  function LateSignInStep(t: Timing, marker: Option<int>, k: nat): Step {
    match k
    case 0 => SetStatus(LOA)
    case 1 => Tick(t.lag)
    case 2 => SignIn(PreTokenGeneration.Found(ACTIVE))
    case 3 => Tick(t.triggerBudget)
    case 4 => Issue(0)
    case 5 => Tick(ACCESS_TOKEN_MS)
    case 6 => Request(MintedAt(t), false, false)
    case 7 => Sample(0, marker)
    case 8 => Tick(t.readBudget)
    case _ => Finish(0, true)
  }

  function LateSignInState(t: Timing, marker: Option<int>, k: nat): State {
    var c, m := ChangeAt(t), MintedAt(t);
    var s0 := State("d", "m", c, [Version(ACTIVE, c)], [Version(marker, c)], [], {}, None, []);
    var s1 := s0.(statuses := [Version(ACTIVE, c), Version(LOA, c)]);
    var s6 := s1.(now := m + ACCESS_TOKEN_MS, tokens := {m});
    var waiting := Read(m + ACCESS_TOKEN_MS, IssuedAt(m), false, false, None, None);
    var answered := waiting.(sample := Some(marker));
    match k
    case 0 => s0
    case 1 => s1
    case 2 => s1.(now := c + t.lag)
    case 3 => s1.(now := c + t.lag, signIns := [c + t.lag])
    case 4 => s1.(now := m, signIns := [c + t.lag])
    case 5 => s1.(now := m, tokens := {m})
    case 6 => s6
    case 7 => s6.(pending := [waiting])
    case 8 => s6.(pending := [answered])
    case 9 => s6.(pending := [answered], now := m + ACCESS_TOKEN_MS + t.readBudget)
    case _ => s6.(now := m + ACCESS_TOKEN_MS + t.readBudget,
                  entry := Some(EntryAfterRead(marker, m + ACCESS_TOKEN_MS + t.readBudget)))
  }

  lemma LateSignInIsIssued(t: Timing, marker: Option<int>, k: nat)
    requires k < 5
    ensures CanStep(t, LateSignInState(t, marker, k), LateSignInStep(t, marker, k))
    ensures LateSignInState(t, marker, k + 1) == Next(t, LateSignInState(t, marker, k), LateSignInStep(t, marker, k))
  {
    if k == 2 {
      LaggingStatus(t, LateSignInState(t, marker, k));
    }
  }

  lemma LaggingStatus(t: Timing, s: State)
    requires s.statuses == [Version(ACTIVE, ChangeAt(t)), Version(LOA, ChangeAt(t))] && s.now == ChangeAt(t) + t.lag
    ensures Visible(s.statuses, ACTIVE, s.now, t.lag)
  {
    assert s.statuses[0].value == ACTIVE && s.now <= s.statuses[0 + 1].since + t.lag;
  }

  lemma OnlyVersion<V>(value: V, since: int, now: int, lag: nat)
    ensures Visible([Version(value, since)], value, now, lag)
  {
    assert [Version(value, since)][0].value == value;
  }

  lemma LateSignInIsUsed(t: Timing, marker: Option<int>, k: nat)
    requires 5 <= k < 10
    ensures CanStep(t, LateSignInState(t, marker, k), LateSignInStep(t, marker, k))
    ensures LateSignInState(t, marker, k + 1) == Next(t, LateSignInState(t, marker, k), LateSignInStep(t, marker, k))
  {
    assert MintedAt(t) % 1000 == 0;
    OnlyVersion(marker, ChangeAt(t), MintedAt(t) + ACCESS_TOKEN_MS, t.lag);
  }

  lemma LateSignInStates(t: Timing, marker: Option<int>)
    ensures Init(LateSignInState(t, marker, 0))
    ensures forall k: nat :: k <= 10 ==> LateSignInState(t, marker, k).markers == [Version(marker, ChangeAt(t))]
    ensures forall k: nat :: 1 <= k <= 10 ==>
      var s := LateSignInState(t, marker, k); s.statuses != [] && Current(s.statuses) == LOA
    ensures forall k: nat :: k < 9 ==> !LateSignInStep(t, marker, k).Finish?
    ensures forall k: nat :: k < 10 && LateSignInStep(t, marker, k).SignIn? ==> LateSignInStep(t, marker, k).lookup.Found?
    ensures LateSignInState(t, marker, 9).now == ChangeAt(t) + LastRequest(t) + t.readBudget
    ensures LateSignInState(t, marker, 1).now == ChangeAt(t)
  {
    assert "d"[0] == 'd' && !PreTokenGeneration.IsJsSpace('d');
  }

  lemma LateSignInIsAdmitted(t: Timing, marker: Option<int>)
    requires marker.Some? ==> marker.value < IssuedAt(MintedAt(t))
    ensures var s := LateSignInState(t, marker, 9); CanStep(t, s, Finish(0, true)) && Admitted(t, s, Finish(0, true)).Some?
  {
    LateSignInIsUsed(t, marker, 9);
  }

  /** The run: whatever marker of an earlier second is in place, and with the store answering, the
      member gets through for the whole hour, the lags and the read. */
  lemma LateSignInRun(t: Timing, marker: Option<int>) returns (states: seq<State>, steps: seq<Step>)
    requires marker.Some? ==> marker.value < IssuedAt(MintedAt(t))
    ensures Run(t, states, steps) && |steps| == 10 && InactiveFrom(states, steps, 1)
    ensures forall k :: 0 <= k < |states| ==> states[k].markers == [Version(marker, states[1].now)]
    ensures forall k :: 0 <= k < |steps| ==> !(steps[k].Finish? && !steps[k].ok)
    ensures states[1].now == ChangeAt(t) && states[9].now == states[1].now + LastRequest(t) + t.readBudget
    ensures CanStep(t, states[9], steps[9]) && Admitted(t, states[9], steps[9]).Some?
  {
    states := seq(11, (k: nat) => LateSignInState(t, marker, k));
    steps := seq(10, (k: nat) => LateSignInStep(t, marker, k));
    LateSignInStates(t, marker);
    LateSignInIsAdmitted(t, marker);
    forall k | 0 <= k < 10 ensures CanStep(t, states[k], steps[k]) && states[k + 1] == Next(t, states[k], steps[k]) {
      if k < 5 {
        LateSignInIsIssued(t, marker, k);
      } else {
        LateSignInIsUsed(t, marker, k);
      }
    }
  }

  /** The hour bound, exactly: the token's lifetime, the lag of the trigger's read, the trigger's own
      time, and one marker read. */
  lemma HourBoundIsExact(t: Timing, bound: int)
    ensures OutWithin(t, bound) <==> bound >= LastRequest(t) + t.readBudget
  {
    if bound >= LastRequest(t) + t.readBudget {
      forall states: seq<State>, steps: seq<Step>, j: nat, k: nat |
        && Run(t, states, steps) && j <= k < |steps| && InactiveFrom(states, steps, j)
        && CanStep(t, states[k], steps[k]) && Admitted(t, states[k], steps[k]).Some?
        ensures states[k].now <= states[j].now + bound
      {
        if states[k].now > states[j].now + bound {
          NothingIsAdmittedAfterTheHour(t, states, steps, j, k);
        }
      }
    } else {
      var states, steps := LateSignInRun(t, None);
    }
  }

  // ---- Thirty seconds, once the marker is written and the store answers

  /** From step `j` on the stored marker covers `issuedAt` and no marker read fails. */
  ghost predicate EnforcedFrom(states: seq<State>, steps: seq<Step>, j: nat, issuedAt: int)
    requires |states| == |steps| + 1
  {
    && (forall k :: j <= k < |states| ==> states[k].markers != [] && Covers(Current(states[k].markers), issuedAt))
    && (forall k :: j <= k < |steps| ==> !(steps[k].Finish? && !steps[k].ok))
  }

  /** How long an answer without the marker can still be in use: the lag of an ordinary read, the read
      itself, and the cache's lifetime. */
  function Enforcement(t: Timing): nat {
    CACHE_TTL_MS + t.readBudget + t.lag
  }

  /** Whatever in the instance or the store still predates the marker, in place at `since`, runs out in
      time; a forced read sees the marker at once. */
  predicate Expiring(t: Timing, since: int, issuedAt: int, s: State) {
    && (forall i :: 0 <= i < |s.markers| && !Covers(s.markers[i].value, issuedAt) ==>
          i + 1 < |s.markers| && s.markers[i + 1].since <= since)
    && (forall r :: r in s.pending && r.sample.Some? && !Covers(r.sample.value, issuedAt) ==>
          r.startedAt <= if r.forced then since else since + t.lag)
    && (s.entry.Some? && !s.entry.value.known ==> s.entry.value.expiresAtMs <= since + FAILURE_BACKOFF_MS)
    && (s.entry.Some? && s.entry.value.known && !Covers(s.entry.value.revokedAt, issuedAt) ==>
          s.entry.value.expiresAtMs <= since + Enforcement(t))
  }

  lemma StepKeepsExpiring(t: Timing, since: int, issuedAt: int, s: State, step: Step)
    requires Timely(t, s) && CanStep(t, s, step) && Expiring(t, since, issuedAt, s)
    requires Covers(Current(s.markers), issuedAt) && Covers(Current(Next(t, s, step).markers), issuedAt)
    requires !(step.Finish? && !step.ok)
    ensures Expiring(t, since, issuedAt, Next(t, s, step))
  {
    match step
    case Finish(i, ok) =>
      Without(s.pending, i);
      assert s.pending[i] in s.pending;
    case Sample(i, _) => assert s.pending[i] in s.pending;
    case _ =>
  }

  lemma ExpiringBegins(t: Timing, issuedAt: int, s: State)
    requires Timely(t, s) && Covers(Current(s.markers), issuedAt)
    ensures Expiring(t, s.now, issuedAt, s)
  {
  }

  lemma {:induction false} EnforcementExpires(
    t: Timing, states: seq<State>, steps: seq<Step>, j: nat, k: nat, issuedAt: int)
    requires Run(t, states, steps) && j <= k < |states| && EnforcedFrom(states, steps, j, issuedAt)
    ensures Expiring(t, states[j].now, issuedAt, states[k])
    decreases k
  {
    if j < k {
      EnforcementExpires(t, states, steps, j, k - 1, issuedAt);
      RunIsTimely(t, states, steps, k - 1);
      StepKeepsExpiring(t, states[j].now, issuedAt, states[k - 1], steps[k - 1]);
    } else {
      RunIsTimely(t, states, steps, k);
      ExpiringBegins(t, issuedAt, states[k]);
    }
  }

  /** Once the marker has stood for the cache's lifetime, one read and its lag, with the store
      answering, no token it covers gets a request through on either authorizer. */
  lemma MarkerIsEnforced(t: Timing, states: seq<State>, steps: seq<Step>, j: nat, k: nat, issuedAt: int)
    requires Run(t, states, steps) && j <= k < |steps| && EnforcedFrom(states, steps, j, issuedAt)
    requires states[k].now >= states[j].now + Enforcement(t)
    ensures CanStep(t, states[k], steps[k])
    ensures Admitted(t, states[k], steps[k]).Some? ==> issuedAt < Admitted(t, states[k], steps[k]).value
  {
    EnforcementExpires(t, states, steps, j, k, issuedAt);
    RunIsTimely(t, states, steps, k);
    match steps[k]
    case Finish(i, ok) => assert states[k].pending[i] in states[k].pending;
    case _ =>
  }

  /** On the route that forces its reads, the marker is enforced one read after it stands. */
  lemma ForcedReadsEnforceAtOnce(t: Timing, states: seq<State>, steps: seq<Step>, j: nat, k: nat, issuedAt: int)
    requires Run(t, states, steps) && j <= k < |steps| && EnforcedFrom(states, steps, j, issuedAt)
    requires steps[k].Finish? && steps[k].i < |states[k].pending| && states[k].pending[steps[k].i].forced
    requires states[k].now > states[j].now + t.readBudget
    ensures CanStep(t, states[k], steps[k])
    ensures Admitted(t, states[k], steps[k]).Some? ==> issuedAt < Admitted(t, states[k], steps[k]).value
  {
    EnforcementExpires(t, states, steps, j, k, issuedAt);
    RunIsTimely(t, states, steps, k);
    assert states[k].pending[steps[k].i] in states[k].pending;
  }

  /** The markers a run writes from step `j` on are stamped no earlier than `seconds`. */
  ghost predicate StampedFrom(steps: seq<Step>, j: nat, seconds: int) {
    forall k :: j <= k < |steps| && steps[k].WriteMarker? ==> steps[k].revokedAt >= seconds
  }

  lemma {:induction false} MarkerStays(t: Timing, states: seq<State>, steps: seq<Step>, j: nat, k: nat, seconds: int)
    requires Run(t, states, steps) && j <= k < |states|
    requires states[j].markers != [] && Covers(Current(states[j].markers), seconds) && StampedFrom(steps, j, seconds)
    ensures states[k].markers != [] && Covers(Current(states[k].markers), seconds)
    decreases k
  {
    if j < k {
      MarkerStays(t, states, steps, j, k - 1, seconds);
      assert states[k] == Next(t, states[k - 1], steps[k - 1]);
    }
  }

  /** A member inactive from step `change` on, with a marker in place at step `j` that covers the last
      second a token could still be issued in: no request with any of the member's tokens gets through
      once the marker has had its time, provided the store answers. */
  lemma InactiveMemberIsOutOnceMarked(
    t: Timing, states: seq<State>, steps: seq<Step>, change: nat, j: nat, k: nat)
    requires Run(t, states, steps) && change <= j <= k < |steps|
    requires InactiveFrom(states, steps, change)
    requires var seconds := IssuedAt(states[change].now + t.lag + t.triggerBudget);
      states[j].markers != [] && Covers(Current(states[j].markers), seconds) && StampedFrom(steps, j, seconds)
    requires forall n :: j <= n < |steps| ==> !(steps[n].Finish? && !steps[n].ok)
    requires states[k].now >= states[j].now + Enforcement(t)
    ensures CanStep(t, states[k], steps[k]) && Admitted(t, states[k], steps[k]) == None
  {
    var seconds := IssuedAt(states[change].now + t.lag + t.triggerBudget);
    forall n | j <= n < |states| ensures states[n].markers != [] && Covers(Current(states[n].markers), seconds) {
      MarkerStays(t, states, steps, j, n, seconds);
    }
    MarkerIsEnforced(t, states, steps, j, k, seconds);
    RunKeepsClosing(t, states, steps, change, k);
    match steps[k]
    case Finish(i, _) => assert states[k].pending[i] in states[k].pending;
    case _ =>
  }

  /** A marker of the second of the change does not do: a sign-in that read late is issued a token of a
      later second, and gets through for its whole hour with the store answering. */
  lemma LateSignInOutlivesTheMarker(t: Timing) returns (states: seq<State>, steps: seq<Step>)
    requires t.lag + t.triggerBudget > 0
    ensures Run(t, states, steps) && |steps| == 10 && InactiveFrom(states, steps, 1)
    ensures EnforcedFrom(states, steps, 1, IssuedAt(states[1].now))
    ensures states[9].now == states[1].now + LastRequest(t) + t.readBudget
    ensures CanStep(t, states[9], steps[9]) && Admitted(t, states[9], steps[9]).Some?
  {
    assert MintedAt(t) % 1000 == 0 && ChangeAt(t) < MintedAt(t);
    states, steps := LateSignInRun(t, Some(IssuedAt(ChangeAt(t))));
  }

  // ---- The thirty seconds are not the whole bound

  /** In every run, a covering marker with an answering store is enforced `bound` ms later. */
  ghost predicate EnforcedWithin(t: Timing, bound: int) {
    forall states: seq<State>, steps: seq<Step>, j: nat, k: nat, issuedAt: int ::
      && Run(t, states, steps) && j <= k < |steps|
      && EnforcedFrom(states, steps, j, issuedAt)
      && states[k].now >= states[j].now + bound
      && CanStep(t, states[k], steps[k])
      && Admitted(t, states[k], steps[k]).Some?
      ==> issuedAt < Admitted(t, states[k], steps[k]).value
  }

  /** A request well after the marker is written whose read still gives the value before it: the
      answer is cached when the read finishes, and admits the same token up to the end of its
      lifetime. */
  function LateAnswerStep(t: Timing, k: nat): Step {
    match k
    case 0 => SignIn(PreTokenGeneration.Found(ACTIVE))
    case 1 => Issue(0)
    case 2 => WriteMarker(0)
    case 3 => Tick(t.lag)
    case 4 => Request(0, false, false)
    case 5 => Sample(0, None)
    case 6 => Tick(t.readBudget)
    case 7 => Finish(0, true)
    case 8 => Tick(CACHE_TTL_MS - 1)
    case _ => Request(0, false, false)
  }

  function LateAnswerState(t: Timing, k: nat): State {
    var s0 := State("d", "m", 0, [Version(ACTIVE, 0)], [Version(None, 0)], [], {}, None, []);
    var s3 := s0.(tokens := {0}, markers := [Version(None, 0), Version(Some(0), 0)]);
    var waiting := Read(t.lag, 0, false, false, None, None);
    var answered := waiting.(sample := Some(None));
    var done := t.lag + t.readBudget;
    var s8 := s3.(now := done, entry := Some(Entry(None, true, done + CACHE_TTL_MS)));
    match k
    case 0 => s0
    case 1 => s0.(signIns := [0])
    case 2 => s0.(tokens := {0})
    case 3 => s3
    case 4 => s3.(now := t.lag)
    case 5 => s3.(now := t.lag, pending := [waiting])
    case 6 => s3.(now := t.lag, pending := [answered])
    case 7 => s3.(now := done, pending := [answered])
    case 8 => s8
    case _ => s8.(now := done + CACHE_TTL_MS - 1)
  }

  lemma LateAnswerBegins(t: Timing, k: nat)
    requires Enforcement(t) <= ACCESS_TOKEN_MS && k < 5
    ensures CanStep(t, LateAnswerState(t, k), LateAnswerStep(t, k))
    ensures LateAnswerState(t, k + 1) == Next(t, LateAnswerState(t, k), LateAnswerStep(t, k))
  {
    var s := LateAnswerState(t, k);
    if k == 0 {
      assert s.statuses[0].value == ACTIVE;
    }
  }

  lemma LateAnswerEnds(t: Timing, k: nat)
    requires Enforcement(t) <= ACCESS_TOKEN_MS && 5 <= k < 10
    ensures CanStep(t, LateAnswerState(t, k), LateAnswerStep(t, k))
    ensures LateAnswerState(t, k + 1) == Next(t, LateAnswerState(t, k), LateAnswerStep(t, k))
  {
    var s := LateAnswerState(t, k);
    if k == 5 {
      assert s.markers[0].value == None && s.now <= s.markers[0 + 1].since + t.lag;
    }
  }

  lemma LateAnswerBeginsAtInit(t: Timing)
    ensures Init(LateAnswerState(t, 0))
  {
    assert "d"[0] == 'd' && !PreTokenGeneration.IsJsSpace('d');
  }

  lemma LateAnswerMarker(t: Timing, k: nat)
    requires 3 <= k
    ensures LateAnswerState(t, k).markers == [Version(None, 0), Version(Some(0), 0)]
  {
  }

  lemma LateAnswerIsAdmitted(t: Timing)
    requires Enforcement(t) <= ACCESS_TOKEN_MS
    ensures var s, step := LateAnswerState(t, 9), LateAnswerStep(t, 9);
      CanStep(t, s, step) && Admitted(t, s, step) == Some(0)
  {
    LateAnswerEnds(t, 9);
  }

  lemma LateAnswerAlong(t: Timing, states: seq<State>, steps: seq<Step>)
    requires Enforcement(t) <= ACCESS_TOKEN_MS && |states| == 11 && |steps| == 10
    requires forall k :: 0 <= k < 11 ==> states[k] == LateAnswerState(t, k)
    requires forall k :: 0 <= k < 10 ==> steps[k] == LateAnswerStep(t, k)
    ensures Run(t, states, steps)
  {
    LateAnswerBeginsAtInit(t);
    forall k | 0 <= k < 10 ensures CanStep(t, states[k], steps[k]) && states[k + 1] == Next(t, states[k], steps[k]) {
      if k < 5 {
        LateAnswerBegins(t, k);
      } else {
        LateAnswerEnds(t, k);
      }
    }
  }

  lemma LateAnswerRun(t: Timing) returns (states: seq<State>, steps: seq<Step>)
    requires Enforcement(t) <= ACCESS_TOKEN_MS
    ensures Run(t, states, steps) && |steps| == 10
    ensures EnforcedFrom(states, steps, 3, 0)
    ensures states[3].now == 0 && states[9].now == Enforcement(t) - 1
    ensures CanStep(t, states[9], steps[9]) && Admitted(t, states[9], steps[9]) == Some(0)
  {
    states := seq(11, (k: nat) => LateAnswerState(t, k));
    steps := seq(10, (k: nat) => LateAnswerStep(t, k));
    LateAnswerAlong(t, states, steps);
    LateAnswerIsAdmitted(t);
    forall k | 3 <= k < 11 ensures states[k].markers == [Version(None, 0), Version(Some(0), 0)] {
      LateAnswerMarker(t, k);
    }
  }

  /** The marker is enforced within `bound` exactly when `bound` covers the cache's thirty seconds, a
      whole marker read and its lag. With instant and consistent reads that is the thirty seconds. */
  lemma EnforcementBoundIsExact(t: Timing, bound: int)
    requires Enforcement(t) <= ACCESS_TOKEN_MS
    ensures EnforcedWithin(t, bound) <==> bound >= Enforcement(t)
  {
    if bound >= Enforcement(t) {
      forall states: seq<State>, steps: seq<Step>, j: nat, k: nat, issuedAt: int |
        && Run(t, states, steps) && j <= k < |steps|
        && EnforcedFrom(states, steps, j, issuedAt)
        && states[k].now >= states[j].now + bound
        && CanStep(t, states[k], steps[k])
        && Admitted(t, states[k], steps[k]).Some?
        ensures issuedAt < Admitted(t, states[k], steps[k]).value
      {
        MarkerIsEnforced(t, states, steps, j, k, issuedAt);
      }
    } else {
      var states, steps := LateAnswerRun(t);
      assert states[9].now >= states[3].now + bound;
    }
  }
}
