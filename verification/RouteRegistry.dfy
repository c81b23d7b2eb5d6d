/** The HTTP API's route registry: it attaches an authorizer to every route, remembers the reserved
    alerting routes, and fixes their throttles once. */
module RouteRegistry {
  import opened MemberStatus

  datatype RouteThrottle = RouteThrottle(rateLimit: nat, burstLimit: nat)

  const DEFAULT_ALERTING_THROTTLE := RouteThrottle(50, 100)
  const CALL_TRAFFIC_THROTTLE := RouteThrottle(100, 200)

  /** The alerting-plane routes and their throttles. */
  function AlertingPlaneRoutes(): map<string, RouteThrottle> {
    map[
      "POST /api/v1/alerting/dispatches" := DEFAULT_ALERTING_THROTTLE,
      "GET /api/v1/alerting/dispatches" := CALL_TRAFFIC_THROTTLE,
      "GET /api/v1/alerting/dispatches/{dispatchId}" := CALL_TRAFFIC_THROTTLE,
      "GET /api/v1/alerting/dispatches/{dispatchId}/roster" := CALL_TRAFFIC_THROTTLE,
      "POST /api/v1/alerting/dispatches/{dispatchId}/responses" := CALL_TRAFFIC_THROTTLE,
      "POST /api/v1/alerting/dispatches/{dispatchId}/tone-ladder/advance" := DEFAULT_ALERTING_THROTTLE,
      "POST /api/v1/alerting/dispatches/{dispatchId}/tone-ladder/halt" := DEFAULT_ALERTING_THROTTLE,
      "POST /api/v1/alerting/dispatches/{dispatchId}/mutual-aid/trigger" := DEFAULT_ALERTING_THROTTLE,
      "POST /api/v1/alerting/dispatches/{dispatchId}/mutual-aid/acknowledge" := DEFAULT_ALERTING_THROTTLE,
      "GET /api/v1/apparatus/riding-board/{dispatchId}" := DEFAULT_ALERTING_THROTTLE,
      "POST /api/v1/apparatus/riding-board/{dispatchId}/assignments" := DEFAULT_ALERTING_THROTTLE,
      "POST /api/v1/personnel/members/{memberId}/push-tokens" := DEFAULT_ALERTING_THROTTLE,
      "DELETE /api/v1/personnel/members/{memberId}/push-tokens" := DEFAULT_ALERTING_THROTTLE,
      "GET /api/v1/alerting/home-locality" := DEFAULT_ALERTING_THROTTLE,
      "POST /api/v1/alerting/devices/state" := DEFAULT_ALERTING_THROTTLE,
      "POST /api/v1/alerting/self-test" := DEFAULT_ALERTING_THROTTLE,
      "GET /api/v1/alerting/self-test/{testId}" := DEFAULT_ALERTING_THROTTLE
    ]
  }

  datatype Authorizer = MainAuthorizer | AlertingAuthorizer

  datatype Route = Route(name: string, routeKey: string, authorizer: Authorizer)

  datatype Setting = Setting(routeKey: string, throttle: RouteThrottle)

  /** `keys` holds the reserved keys in the order they were first registered, `routes` the route each
      was registered with last; `settings` is what the stage waits for. */
  datatype Registry = Registry(
    keys: seq<string>,
    routes: map<string, Route>,
    isSealed: bool,
    settings: Option<seq<Setting>>)

  const EMPTY := Registry([], map[], false, None)

  predicate Reserved(table: map<string, RouteThrottle>, key: string) {
    key in table
  }

  function RouteFor(table: map<string, RouteThrottle>, name: string, key: string): Route {
    Route(name, key, if Reserved(table, key) then AlertingAuthorizer else MainAuthorizer)
  }

  /** A reserved route registered after the seal gets its authorizer but no throttle. */
  function Registered(table: map<string, RouteThrottle>, r: Registry, name: string, key: string): Registry {
    if !Reserved(table, key) || r.isSealed then r
    else
      r.(keys := if key in r.routes then r.keys else r.keys + [key],
         routes := r.routes[key := RouteFor(table, name, key)])
  }

  predicate Complete(table: map<string, RouteThrottle>, r: Registry) {
    forall key :: key in table ==> key in r.routes
  }

  predicate Valid(table: map<string, RouteThrottle>, r: Registry) {
    && (forall i :: 0 <= i < |r.keys| ==> r.keys[i] in r.routes)
    && (forall key :: key in r.routes ==> key in r.keys && key in table && r.routes[key].routeKey == key)
    && (forall i, j :: 0 <= i < j < |r.keys| ==> r.keys[i] != r.keys[j])
    && (r.isSealed <==> r.settings.Some?)
  }

  function SettingsOf(table: map<string, RouteThrottle>, r: Registry): seq<Setting>
    requires Valid(table, r)
  {
    seq(|r.keys|, i requires 0 <= i < |r.keys| => Setting(r.routes[r.keys[i]].routeKey, table[r.keys[i]]))
  }

  /** Whether sealing throws: all are required and one is missing. */
  predicate SealThrows(table: map<string, RouteThrottle>, r: Registry, requireAll: bool) {
    requireAll && !Complete(table, r)
  }

  function Sealed(table: map<string, RouteThrottle>, r: Registry, requireAll: bool): Registry
    requires Valid(table, r)
  {
    if SealThrows(table, r, requireAll) || r.isSealed then r
    else r.(isSealed := true, settings := Some(SettingsOf(table, r)))
  }

  class HttpApi {
    const table: map<string, RouteThrottle>
    var keys: seq<string>
    var routes: map<string, Route>
    var isSealed: bool
    var settings: Option<seq<Setting>>

    constructor (table: map<string, RouteThrottle>)
      ensures this.table == table && State() == EMPTY && Valid(table, State())
    {
      this.table := table;
      keys, routes, isSealed, settings := [], map[], false, None;
    }

    function State(): Registry
      reads this
    {
      Registry(keys, routes, isSealed, settings)
    }

    /** `warned` says that a reserved route came too late for its throttle. */
    method AuthorizedRoute(name: string, routeKey: string) returns (route: Route, warned: bool)
      requires Valid(table, State())
      modifies this
      ensures route.routeKey == routeKey && route.name == name
      ensures route.authorizer == AlertingAuthorizer <==> routeKey in table
      ensures warned <==> routeKey in table && old(isSealed)
      ensures State() == Registered(table, old(State()), name, routeKey) && Valid(table, State())
    {
      var reserved := routeKey in table;
      route := Route(name, routeKey, if reserved then AlertingAuthorizer else MainAuthorizer);
      warned := false;
      if reserved {
        if isSealed {
          warned := true;
        } else {
          if routeKey !in routes {
            keys := keys + [routeKey];
          }
          routes := routes[routeKey := route];
        }
      }
    }

    method SealRouteSettings(requireAll: bool) returns (threw: bool)
      requires Valid(table, State())
      modifies this
      ensures threw <==> SealThrows(table, old(State()), requireAll)
      ensures State() == Sealed(table, old(State()), requireAll) && Valid(table, State())
    {
      if requireAll && !Complete(table, State()) {
        return true;
      }
      if isSealed {
        return false;
      }
      var resolved: seq<Setting> := [];
      for i := 0 to |keys|
        invariant resolved == SettingsOf(table, State())[..i]
      {
        resolved := resolved + [Setting(routes[keys[i]].routeKey, table[keys[i]])];
      }
      assert resolved == SettingsOf(table, State());
      isSealed, settings := true, Some(resolved);
      return false;
    }
  }

  // ---- Any sequence of calls

  datatype Call = Register(name: string, key: string) | Seal(requireAll: bool)

  function Next(table: map<string, RouteThrottle>, r: Registry, call: Call): (r': Registry)
    requires Valid(table, r)
    ensures Valid(table, r')
  {
    match call
    case Register(name, key) => Registered(table, r, name, key)
    case Seal(requireAll) => Sealed(table, r, requireAll)
  }

  function After(table: map<string, RouteThrottle>, calls: seq<Call>): (r: Registry)
    ensures Valid(table, r)
  {
    if calls == [] then EMPTY else Next(table, After(table, calls[..|calls| - 1]), calls[|calls| - 1])
  }

  /** The call seals: nothing sealed before it, and it does not throw. */
  predicate SealsAt(table: map<string, RouteThrottle>, calls: seq<Call>, k: nat)
    requires k < |calls|
  {
    var before := After(table, calls[..k]);
    !before.isSealed && calls[k].Seal? && !SealThrows(table, before, calls[k].requireAll)
  }

  lemma {:induction false} StaysSealed(table: map<string, RouteThrottle>, calls: seq<Call>, k: nat)
    requires k < |calls| && SealsAt(table, calls, k)
    ensures After(table, calls).isSealed
    ensures After(table, calls).settings == Some(SettingsOf(table, After(table, calls[..k])))
    decreases |calls|
  {
    var init := calls[..|calls| - 1];
    if k < |init| {
      assert init[..k] == calls[..k] && init[k] == calls[k];
      StaysSealed(table, init, k);
    }
  }

  lemma {:induction false} SealedBySome(table: map<string, RouteThrottle>, calls: seq<Call>) returns (k: nat)
    requires After(table, calls).isSealed
    ensures k < |calls| && SealsAt(table, calls, k)
    decreases |calls|
  {
    var init := calls[..|calls| - 1];
    if After(table, init).isSealed {
      k := SealedBySome(table, init);
      assert init[..k] == calls[..k] && init[k] == calls[k];
    } else {
      k := |init|;
    }
  }

  /** Settings are resolved by one call, and stay what that call saw: its seal is the only one. */
  lemma SettledOnce(table: map<string, RouteThrottle>, calls: seq<Call>)
    ensures var settings := After(table, calls).settings;
      settings.Some? <==> exists k :: 0 <= k < |calls| && SealsAt(table, calls, k)
    ensures forall k :: 0 <= k < |calls| && SealsAt(table, calls, k) ==>
      After(table, calls).settings == Some(SettingsOf(table, After(table, calls[..k])))
    ensures forall j, k :: 0 <= j < k < |calls| ==> !(SealsAt(table, calls, j) && SealsAt(table, calls, k))
  {
    forall k | 0 <= k < |calls| && SealsAt(table, calls, k)
      ensures After(table, calls).settings == Some(SettingsOf(table, After(table, calls[..k])))
    {
      StaysSealed(table, calls, k);
    }
    forall j, k | 0 <= j < k < |calls| && SealsAt(table, calls, j) ensures !SealsAt(table, calls, k) {
      assert calls[..k][..j] == calls[..j];
      StaysSealed(table, calls[..k], j);
    }
    if After(table, calls).settings.Some? {
      var k := SealedBySome(table, calls);
    }
  }

  predicate RegisteredIn(calls: seq<Call>, key: string) {
    exists i :: 0 <= i < |calls| && calls[i].Register? && calls[i].key == key
  }

  /** Until the seal, the reserved keys registered are those of the calls so far. */
  lemma {:induction false} RoutesSoFar(table: map<string, RouteThrottle>, calls: seq<Call>, key: string)
    requires !After(table, calls).isSealed
    ensures key in After(table, calls).routes <==> key in table && RegisteredIn(calls, key)
    decreases |calls|
  {
    if calls != [] {
      var init, last := calls[..|calls| - 1], calls[|calls| - 1];
      RoutesSoFar(table, init, key);
      assert RegisteredIn(calls, key) <==> RegisteredIn(init, key) || (last.Register? && last.key == key);
    }
  }

  /** The registration of the key that counts: the last one before the seal. */
  ghost predicate LastBeforeSeal(table: map<string, RouteThrottle>, calls: seq<Call>, key: string, i: nat)
    requires i < |calls|
  {
    && calls[i].Register? && calls[i].key == key && !After(table, calls[..i]).isSealed
    && forall j :: i < j < |calls| && calls[j].Register? && calls[j].key == key ==> After(table, calls[..j]).isSealed
  }

  /** In every sequence of calls each route remembered is a reserved one, has the alerting authorizer,
      and bears the name it was registered with last before the seal. */
  lemma {:induction false} RoutesAreTheLastOnes(table: map<string, RouteThrottle>, calls: seq<Call>, key: string)
    returns (i: nat)
    requires key in After(table, calls).routes
    ensures key in table && i < |calls| && LastBeforeSeal(table, calls, key, i)
    ensures After(table, calls).routes[key] == Route(calls[i].name, key, AlertingAuthorizer)
    decreases |calls|
  {
    var n := |calls| - 1;
    var init, last := calls[..n], calls[n];
    if last.Register? && last.key == key && key in table && !After(table, init).isSealed {
      i := n;
    } else {
      OtherCallKeeps(table, After(table, init), last, key);
      i := RoutesAreTheLastOnes(table, init, key);
      StillTheLast(table, calls, key, i);
    }
  }

  lemma OtherCallKeeps(table: map<string, RouteThrottle>, r: Registry, call: Call, key: string)
    requires Valid(table, r)
    requires !(call.Register? && call.key == key && key in table && !r.isSealed)
    ensures key in Next(table, r, call).routes <==> key in r.routes
    ensures key in r.routes ==> Next(table, r, call).routes[key] == r.routes[key]
  {
  }

  lemma StillTheLast(table: map<string, RouteThrottle>, calls: seq<Call>, key: string, i: nat)
    requires i < |calls| - 1 && LastBeforeSeal(table, calls[..|calls| - 1], key, i)
    requires var last := calls[|calls| - 1];
      last.Register? && last.key == key ==> After(table, calls[..|calls| - 1]).isSealed
    ensures LastBeforeSeal(table, calls, key, i)
  {
    var init := calls[..|calls| - 1];
    assert init[..i] == calls[..i] && init[i] == calls[i];
    forall j | i < j < |calls| && calls[j].Register? && calls[j].key == key
      ensures After(table, calls[..j]).isSealed
    {
      if j < |init| {
        assert init[..j] == calls[..j] && init[j] == calls[j];
      }
    }
  }

  /** The stage's settings are the reserved routes registered before the seal, each once and with
      its own throttle. */
  lemma SettingsAreTheRoutesBefore(table: map<string, RouteThrottle>, calls: seq<Call>, k: nat)
    requires k < |calls| && SealsAt(table, calls, k)
    ensures var settings := SettingsOf(table, After(table, calls[..k]));
      && (forall key :: (exists s :: s in settings && s.routeKey == key) <==> key in table && RegisteredIn(calls[..k], key))
      && (forall s :: s in settings ==> s.routeKey in table && s.throttle == table[s.routeKey])
      && (forall i, j :: 0 <= i < j < |settings| ==> settings[i].routeKey != settings[j].routeKey)
  {
    var before := After(table, calls[..k]);
    var settings := SettingsOf(table, before);
    forall key ensures (exists s :: s in settings && s.routeKey == key) <==> key in table && RegisteredIn(calls[..k], key) {
      RoutesSoFar(table, calls[..k], key);
      if key in before.routes {
        var i :| 0 <= i < |before.keys| && before.keys[i] == key;
        assert settings[i] in settings && settings[i].routeKey == key;
      }
    }
  }

  /** A seal that requires all covers the whole table, and nothing else. */
  lemma RequireAllCoversTheTable(table: map<string, RouteThrottle>, calls: seq<Call>, k: nat)
    requires k < |calls| && SealsAt(table, calls, k) && calls[k].requireAll
    ensures forall key :: key in table <==>
      exists s :: s in SettingsOf(table, After(table, calls[..k])) && s.routeKey == key
  {
    SettingsAreTheRoutesBefore(table, calls, k);
    forall key | key in table ensures RegisteredIn(calls[..k], key) {
      RoutesSoFar(table, calls[..k], key);
    }
  }

  lemma {:induction false} SameFromThere(
    table: map<string, RouteThrottle>, a: seq<Call>, b: seq<Call>, more: seq<Call>)
    requires After(table, a) == After(table, b)
    ensures After(table, a + more) == After(table, b + more)
    decreases |more|
  {
    if more == [] {
      NothingMore(a);
      NothingMore(b);
    } else {
      SameFromThere(table, a, b, more[..|more| - 1]);
      InitOf(a, more);
      InitOf(b, more);
    }
  }

  /** A seal that throws leaves everything as it was, so that calls may go on as if it had not been. */
  lemma ThrowingSealIsNoCall(table: map<string, RouteThrottle>, before: seq<Call>, after: seq<Call>)
    requires SealThrows(table, After(table, before), true)
    ensures After(table, before + [Seal(true)] + after) == After(table, before + after)
  {
    InitOf(before, [Seal(true)]);
    assert [Seal(true)][..0] == [];
    NothingMore(before);
    SameFromThere(table, before + [Seal(true)], before, after);
  }

  lemma NothingMore(calls: seq<Call>)
    ensures calls + [] == calls
  {
  }

  lemma InitOf(a: seq<Call>, b: seq<Call>)
    requires b != []
    ensures (a + b)[..|a + b| - 1] == a + b[..|b| - 1] && (a + b)[|a + b| - 1] == b[|b| - 1]
  {
  }

  /** The deployed table: no reserved route is throttled below the stage's own default, so none of
      them is worse off for its reservation. */
  lemma NoneBelowTheDefault(calls: seq<Call>, k: nat)
    requires k < |calls| && SealsAt(AlertingPlaneRoutes(), calls, k)
    ensures forall s :: s in SettingsOf(AlertingPlaneRoutes(), After(AlertingPlaneRoutes(), calls[..k])) ==>
      && s.throttle.rateLimit >= DEFAULT_ALERTING_THROTTLE.rateLimit
      && s.throttle.burstLimit >= DEFAULT_ALERTING_THROTTLE.burstLimit
  {
    SettingsAreTheRoutesBefore(AlertingPlaneRoutes(), calls, k);
    ThrottlesOfTheTable();
  }

  lemma ThrottlesOfTheTable()
    ensures forall key :: key in AlertingPlaneRoutes() ==>
      AlertingPlaneRoutes()[key] == DEFAULT_ALERTING_THROTTLE || AlertingPlaneRoutes()[key] == CALL_TRAFFIC_THROTTLE
  {
  }
}
