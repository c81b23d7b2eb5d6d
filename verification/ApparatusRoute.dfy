/** The policy of an apparatus route's role, built from any route spec, and what it leaves of the
    audit trail. */
module ApparatusRoute {
  import opened MemberStatus
  import opened Glob
  import opened Iam
  import opened TableGrants

  const DELETE_ITEM := "dynamodb:DeleteItem"
  const BATCH_WRITE_ITEM := "dynamodb:BatchWriteItem"

  datatype Target = Table | GSI2 | GSI3

  datatype TableGrant = TableGrant(sid: string, actions: seq<string>, on: seq<Target>)

  datatype RouteSpec = RouteSpec(grants: seq<TableGrant>, cedar: bool, assetsPutPrefix: Option<string>)

  /** An ARN that is not configured is empty. */
  datatype RouteArgs = RouteArgs(
    tableArn: string, policyStoreArn: string, assetsBucketArn: string, logGroupArn: string)

  function TargetArn(tableArn: string, target: Target): string {
    match target
    case Table => tableArn
    case GSI2 => tableArn + "/index/GSI2"
    case GSI3 => tableArn + "/index/GSI3"
  }

  function Targets(tableArn: string, on: seq<Target>): seq<string> {
    seq(|on|, i requires 0 <= i < |on| => TargetArn(tableArn, on[i]))
  }

  function GrantStatement(tableArn: string, g: TableGrant): Statement {
    Statement(g.sid, Allow, g.actions, Targets(tableArn, g.on), [])
  }

  function AuditMutationDeny(tableArn: string): Statement {
    Statement("DenyAuditMutations", Deny, [UPDATE_ITEM, DELETE_ITEM, BATCH_WRITE_ITEM], [tableArn],
              [ForAllValuesLike(LEADING_KEYS, [Within("AUDIT")])])
  }

  const VERIFIED_PERMISSIONS := "verifiedpermissions:"

  function VerifiedPermissions(policyStoreArn: string): Statement {
    Statement("AuthorizeWithVerifiedPermissions", Allow,
              [VERIFIED_PERMISSIONS + "IsAuthorizedWithToken", VERIFIED_PERMISSIONS + "BatchIsAuthorizedWithToken"],
              [policyStoreArn], [])
  }

  function AssetsPut(bucketArn: string, prefix: string): Statement {
    Statement("AssetsPresignedPut", Allow, ["s3:PutObject"], [bucketArn + "/*/" + prefix + "/*"], [])
  }

  function Observability(logGroupArn: string): seq<Statement> {
    [Statement("WriteOwnLogGroup", Allow, ["logs:CreateLogStream", "logs:PutLogEvents"], [logGroupArn + ":*"], []),
     Statement("XRayWrite", Allow, ["xray:PutTraceSegments", "xray:PutTelemetryRecords"], ["*"], []),
     Statement("CloudWatchMetrics", Allow, ["cloudwatch:PutMetricData"], ["*"],
               [StringEquals("cloudwatch:namespace", ["Boxalarm/apparatus-service"])])]
  }

  /** The grant can change the table's rows in place, by its very name. */
  predicate Mutates(g: TableGrant) {
    Table in g.on && (UPDATE_ITEM in g.actions || DELETE_ITEM in g.actions)
  }

  predicate AnyMutates(grants: seq<TableGrant>) {
    exists g :: g in grants && Mutates(g)
  }

  /** Some grant on the table names UpdateItem or DeleteItem, spelled just so. */
  predicate NamesInPlace(grants: seq<TableGrant>) {
    exists g :: g in grants && Table in g.on
      && ("dynamodb:UpdateItem" in g.actions || "dynamodb:DeleteItem" in g.actions)
  }

  function GrantStatements(tableArn: string, grants: seq<TableGrant>): seq<Statement> {
    seq(|grants|, i requires 0 <= i < |grants| => GrantStatement(tableArn, grants[i]))
  }

  /** The prefix, where one is given and not empty. */
  predicate PutsAssets(spec: RouteSpec) {
    spec.assetsPutPrefix.Some? && spec.assetsPutPrefix.value != ""
  }

  /** The statements that go with the grants: the deny, the authorizer's, the bucket's. */
  function Extras(args: RouteArgs, spec: RouteSpec): seq<Statement> {
    (if AnyMutates(spec.grants) then [AuditMutationDeny(args.tableArn)] else [])
    + (if spec.cedar then [VerifiedPermissions(args.policyStoreArn)] else [])
    + (if PutsAssets(spec) then [AssetsPut(args.assetsBucketArn, spec.assetsPutPrefix.value)] else [])
  }

  function RolePolicy(args: RouteArgs, spec: RouteSpec): seq<Statement> {
    Observability(args.logGroupArn) + (GrantStatements(args.tableArn, spec.grants) + Extras(args, spec))
  }

  /** The statements of the route's role, or None where the builder throws. */
  method ApparatusStatements(args: RouteArgs, spec: RouteSpec) returns (policy: Option<seq<Statement>>)
    ensures policy == None <==>
      || (spec.assetsPutPrefix.Some? && spec.assetsPutPrefix.value != "" && args.assetsBucketArn == "")
      || (NamesInPlace(spec.grants) && args.tableArn == "")
      || (spec.cedar && args.policyStoreArn == "")
      || args.logGroupArn == ""
    ensures policy.Some? ==> policy.value == RolePolicy(args, spec)
  {
    if PutsAssets(spec) && args.assetsBucketArn == "" {
      return None;
    }
    var resolved: seq<Statement> := [];
    var mutates := false;
    for i := 0 to |spec.grants|
      invariant resolved == GrantStatements(args.tableArn, spec.grants[..i])
      invariant mutates <==> AnyMutates(spec.grants[..i])
    {
      var g := spec.grants[i];
      assert spec.grants[..i + 1] == spec.grants[..i] + [g];
      resolved := resolved + [GrantStatement(args.tableArn, g)];
      mutates := mutates || Mutates(g);
    }
    assert spec.grants[..|spec.grants|] == spec.grants;
    ghost var granted := resolved;
    ghost var extras: seq<Statement> := [];
    if mutates {
      if args.tableArn == "" {
        return None;
      }
      resolved := resolved + [AuditMutationDeny(args.tableArn)];
      extras := extras + [AuditMutationDeny(args.tableArn)];
    }
    if spec.cedar {
      if args.policyStoreArn == "" {
        return None;
      }
      resolved := resolved + [VerifiedPermissions(args.policyStoreArn)];
      extras := extras + [VerifiedPermissions(args.policyStoreArn)];
    }
    if PutsAssets(spec) {
      resolved := resolved + [AssetsPut(args.assetsBucketArn, spec.assetsPutPrefix.value)];
      extras := extras + [AssetsPut(args.assetsBucketArn, spec.assetsPutPrefix.value)];
    }
    assert resolved == granted + extras && extras == Extras(args, spec);
    if args.logGroupArn == "" {
      return None;
    }
    return Some(Observability(args.logGroupArn) + resolved);
  }

  // ---- What the statements allow

  predicate IsAction(action: string, name: string) {
    Lower(action) == Lower(name)
  }

  /** A grant reaches the table or an index when it names the action and that very target. */
  predicate GrantReaches(g: TableGrant, tableArn: string, r: Request) {
    && NamesOne(g.actions, r.action)
    && ((Table in g.on && r.resource == tableArn)
        || (GSI2 in g.on && r.resource == tableArn + "/index/GSI2")
        || (GSI3 in g.on && r.resource == tableArn + "/index/GSI3"))
  }

  predicate MayAskCedar(policyStoreArn: string, r: Request) {
    && (IsAction(r.action, "verifiedpermissions:" + "IsAuthorizedWithToken")
        || IsAction(r.action, "verifiedpermissions:" + "BatchIsAuthorizedWithToken"))
    && r.resource == policyStoreArn
  }

  /** An object of the bucket somewhere behind the prefix, whatever stands before that. */
  predicate MayPutAsset(bucketArn: string, prefix: string, r: Request) {
    && IsAction(r.action, "s3:PutObject")
    && bucketArn + "/" <= r.resource && Contains(r.resource[|bucketArn| + 1..], "/" + prefix + "/")
  }

  predicate MayObserve(logGroupArn: string, r: Request) {
    || ((IsAction(r.action, "logs:CreateLogStream") || IsAction(r.action, "logs:PutLogEvents"))
        && logGroupArn + ":" <= r.resource)
    || IsAction(r.action, "xray:PutTraceSegments") || IsAction(r.action, "xray:PutTelemetryRecords")
    || (IsAction(r.action, "cloudwatch:PutMetricData")
        && "Boxalarm/apparatus-service" in ValuesOf(r, "cloudwatch:namespace"))
  }

  lemma LiteralAction(name: string, action: string)
    requires Literal(name)
    ensures ActionMatches(name, action) <==> IsAction(action, name)
  {
    LowerLiteral(name);
    LikeLiteral(Lower(name), Lower(action));
  }

  lemma TargetsReached(tableArn: string, on: seq<Target>, resource: string)
    requires Literal(tableArn)
    ensures LikeAny(Targets(tableArn, on), resource) <==>
      || (Table in on && resource == tableArn)
      || (GSI2 in on && resource == tableArn + "/index/GSI2")
      || (GSI3 in on && resource == tableArn + "/index/GSI3")
  {
    var patterns := Targets(tableArn, on);
    LikeLiteral(tableArn, resource);
    LikeLiteral(tableArn + "/index/GSI2", resource);
    LikeLiteral(tableArn + "/index/GSI3", resource);
    forall i | 0 <= i < |on| ensures patterns[i] in patterns && on[i] in on {}
  }

  lemma GrantAllows(tableArn: string, g: TableGrant, r: Request)
    requires Literal(tableArn)
    ensures Applies(GrantStatement(tableArn, g), r) <==> GrantReaches(g, tableArn, r)
  {
    TargetsReached(tableArn, g.on, r.resource);
  }

  lemma CedarServiceIsLiteral()
    ensures Literal("verifiedpermissions:")
  {
  }

  lemma CedarOneIsLiteral()
    ensures Literal("IsAuthorizedWithToken")
  {
  }

  lemma CedarManyIsLiteral()
    ensures Literal("BatchIsAuthorizedWithToken")
  {
  }

  lemma CedarNamesAreLiteral()
    ensures Literal("verifiedpermissions:" + "IsAuthorizedWithToken")
    ensures Literal("verifiedpermissions:" + "BatchIsAuthorizedWithToken")
  {
    CedarServiceIsLiteral();
    CedarOneIsLiteral();
    CedarManyIsLiteral();
    LiteralJoin("verifiedpermissions:", "IsAuthorizedWithToken");
    LiteralJoin("verifiedpermissions:", "BatchIsAuthorizedWithToken");
  }

  lemma LiteralJoin(a: string, b: string)
    requires Literal(a) && Literal(b)
    ensures Literal(a + b)
  {
  }

  lemma TwoActions(s: Statement, a: string, b: string, action: string)
    requires s.actions == [a, b] && Literal(a) && Literal(b)
    ensures NamesAction(s, action) <==> IsAction(action, a) || IsAction(action, b)
  {
    LiteralAction(a, action);
    LiteralAction(b, action);
    assert s.actions[0] in s.actions && s.actions[1] in s.actions;
  }

  lemma PermissionsAllow(policyStoreArn: string, r: Request)
    requires Literal(policyStoreArn)
    ensures Applies(VerifiedPermissions(policyStoreArn), r) <==> MayAskCedar(policyStoreArn, r)
  {
    CedarNamesAreLiteral();
    var s := VerifiedPermissions(policyStoreArn);
    TwoActions(s, s.actions[0], s.actions[1], r.action);
    LikeOne(policyStoreArn, r.resource);
    LikeLiteral(policyStoreArn, r.resource);
  }

  lemma AssetsAllow(bucketArn: string, prefix: string, r: Request)
    requires Literal(bucketArn) && Literal(prefix)
    ensures Applies(AssetsPut(bucketArn, prefix), r) <==> MayPutAsset(bucketArn, prefix, r)
  {
    var s := AssetsPut(bucketArn, prefix);
    LiteralAction("s3:PutObject", r.action);
    OneAction(s, "s3:PutObject", r.action);
    var pattern := bucketArn + "/*/" + prefix + "/*";
    assert pattern == (bucketArn + "/") + ("*" + (("/" + prefix + "/") + "*"));
    LikeOne(pattern, r.resource);
    LikeInside(bucketArn + "/", "/" + prefix + "/", r.resource);
  }

  lemma LogsAllow(logGroupArn: string, r: Request)
    requires Literal(logGroupArn)
    ensures Applies(Observability(logGroupArn)[0], r) <==>
      (IsAction(r.action, "logs:CreateLogStream") || IsAction(r.action, "logs:PutLogEvents"))
      && logGroupArn + ":" <= r.resource
  {
    var s := Observability(logGroupArn)[0];
    TwoActions(s, "logs:CreateLogStream", "logs:PutLogEvents", r.action);
    assert logGroupArn + ":*" == (logGroupArn + ":") + "*";
    LikeOne(logGroupArn + ":*", r.resource);
    LikeFrom(logGroupArn + ":", r.resource);
  }

  lemma TracesAllow(logGroupArn: string, r: Request)
    ensures Applies(Observability(logGroupArn)[1], r) <==>
      IsAction(r.action, "xray:PutTraceSegments") || IsAction(r.action, "xray:PutTelemetryRecords")
  {
    var s := Observability(logGroupArn)[1];
    TwoActions(s, "xray:PutTraceSegments", "xray:PutTelemetryRecords", r.action);
    LikeOne("*", r.resource);
    LikeAnything(r.resource);
  }

  lemma MetricsAllow(logGroupArn: string, r: Request)
    ensures Applies(Observability(logGroupArn)[2], r) <==>
      IsAction(r.action, "cloudwatch:PutMetricData")
      && "Boxalarm/apparatus-service" in ValuesOf(r, "cloudwatch:namespace")
  {
    var s := Observability(logGroupArn)[2];
    LiteralAction("cloudwatch:PutMetricData", r.action);
    OneAction(s, "cloudwatch:PutMetricData", r.action);
    LikeOne("*", r.resource);
    LikeAnything(r.resource);
    assert s.conditions[0] in s.conditions;
  }

  /** What the role may do at all, for every request: what a grant reaches at exactly its target, and
      what the other statements are for. The deny takes away from that, and is told below. */
  lemma RoleAllowsExactly(args: RouteArgs, spec: RouteSpec, r: Request)
    requires Literal(args.tableArn) && Literal(args.policyStoreArn) && Literal(args.assetsBucketArn)
    requires Literal(args.logGroupArn) && (spec.assetsPutPrefix.Some? ==> Literal(spec.assetsPutPrefix.value))
    ensures Allowed(RolePolicy(args, spec), r) <==>
      || (exists g :: g in spec.grants && GrantReaches(g, args.tableArn, r))
      || (spec.cedar && MayAskCedar(args.policyStoreArn, r))
      || (spec.assetsPutPrefix.Some? && spec.assetsPutPrefix.value != ""
          && MayPutAsset(args.assetsBucketArn, spec.assetsPutPrefix.value, r))
      || MayObserve(args.logGroupArn, r)
  {
    AllowedSplit(Observability(args.logGroupArn), GrantStatements(args.tableArn, spec.grants), Extras(args, spec), r);
    ObservabilityAllows(args.logGroupArn, r);
    GrantsAllow(args.tableArn, spec.grants, r);
    ExtrasAllow(args, spec, r);
  }

  lemma AllowedSplit(a: seq<Statement>, b: seq<Statement>, c: seq<Statement>, r: Request)
    ensures Allowed(a + (b + c), r) <==> Allowed(a, r) || Allowed(b, r) || Allowed(c, r)
  {
    forall s ensures s in a + (b + c) <==> s in a || s in b || s in c {}
  }

  lemma ObservabilityAllows(logGroupArn: string, r: Request)
    requires Literal(logGroupArn)
    ensures Allowed(Observability(logGroupArn), r) <==> MayObserve(logGroupArn, r)
  {
    LogsAllow(logGroupArn, r);
    TracesAllow(logGroupArn, r);
    MetricsAllow(logGroupArn, r);
    ThreeAllow(Observability(logGroupArn), r);
  }

  lemma ThreeAllow(policy: seq<Statement>, r: Request)
    requires |policy| == 3 && forall s :: s in policy ==> s.effect.Allow?
    ensures Allowed(policy, r) <==> Applies(policy[0], r) || Applies(policy[1], r) || Applies(policy[2], r)
  {
    assert policy[0] in policy && policy[1] in policy && policy[2] in policy;
  }

  lemma GrantsAllow(tableArn: string, grants: seq<TableGrant>, r: Request)
    requires Literal(tableArn)
    ensures Allowed(GrantStatements(tableArn, grants), r) <==>
      exists g :: g in grants && GrantReaches(g, tableArn, r)
  {
    var granted := GrantStatements(tableArn, grants);
    if g :| g in grants && GrantReaches(g, tableArn, r) {
      var i :| 0 <= i < |grants| && grants[i] == g;
      GrantAllows(tableArn, g, r);
      assert granted[i] in granted && granted[i] == GrantStatement(tableArn, g);
    }
    if s :| s in granted && s.effect.Allow? && Applies(s, r) {
      var i :| 0 <= i < |granted| && granted[i] == s;
      GrantAllows(tableArn, grants[i], r);
      assert grants[i] in grants;
    }
  }

  lemma OneAllows(s: Statement, present: bool, r: Request)
    ensures Allowed(if present then [s] else [], r) <==> present && s.effect.Allow? && Applies(s, r)
  {
    assert s in [s];
  }

  lemma ExtrasAllow(args: RouteArgs, spec: RouteSpec, r: Request)
    requires Literal(args.policyStoreArn) && Literal(args.assetsBucketArn)
    requires spec.assetsPutPrefix.Some? ==> Literal(spec.assetsPutPrefix.value)
    ensures Allowed(Extras(args, spec), r) <==>
      || (spec.cedar && MayAskCedar(args.policyStoreArn, r))
      || (spec.assetsPutPrefix.Some? && spec.assetsPutPrefix.value != ""
          && MayPutAsset(args.assetsBucketArn, spec.assetsPutPrefix.value, r))
  {
    var deny, cedar := AuditMutationDeny(args.tableArn), VerifiedPermissions(args.policyStoreArn);
    var prefix := if spec.assetsPutPrefix.Some? then spec.assetsPutPrefix.value else "";
    var assets := AssetsPut(args.assetsBucketArn, prefix);
    var a := if AnyMutates(spec.grants) then [deny] else [];
    var b := if spec.cedar then [cedar] else [];
    var c := if PutsAssets(spec) then [assets] else [];
    assert Extras(args, spec) == a + b + c == a + (b + c);
    AllowedSplit(a, b, c, r);
    OneAllows(deny, AnyMutates(spec.grants), r);
    OneAllows(cedar, spec.cedar, r);
    OneAllows(assets, PutsAssets(spec), r);
    PermissionsAllow(args.policyStoreArn, r);
    if PutsAssets(spec) {
      AssetsAllow(args.assetsBucketArn, prefix, r);
    }
  }

  // ---- Audit rows

  /** A partition of audit rows. */
  function AuditKey(deptId: string, rest: string): string {
    DeptKey(deptId, "#" + "AUDIT" + "#" + rest)
  }

  /** Some grant on the table names the action, by name or by pattern. */
  predicate Granted(grants: seq<TableGrant>, action: string) {
    exists g :: g in grants && Table in g.on && NamesOne(g.actions, action)
  }

  lemma OtherService(pattern: string, action: string)
    requires pattern != "" && action != "" && Lower(pattern)[0] != Lower(action)[0]
    requires Lower(pattern)[0] != '*' && Lower(pattern)[0] != '?'
    ensures !ActionMatches(pattern, action)
  {
  }

  predicate OnlyServices(s: Statement, initials: set<char>) {
    forall p :: p in s.actions ==> p != "" && Lower(p)[0] in initials
  }

  lemma OtherStatement(s: Statement, r: Request)
    requires OnlyServices(s, OTHER_SERVICES) && r.action != "" && Lower(r.action)[0] == 'd'
    ensures !Applies(s, r)
  {
    forall p | p in s.actions ensures !ActionMatches(p, r.action) {
      OtherService(p, r.action);
    }
  }

  const OTHER_SERVICES := {'l', 'x', 'c', 'v', 's'}

  lemma ServicesOfPermissions(policyStoreArn: string)
    ensures OnlyServices(VerifiedPermissions(policyStoreArn), OTHER_SERVICES)
  {
    assert VERIFIED_PERMISSIONS[0] == 'v';
  }

  lemma ServicesOfAssets(bucketArn: string, prefix: string)
    ensures OnlyServices(AssetsPut(bucketArn, prefix), OTHER_SERVICES)
  {
    assert Lower("s3:PutObject")[0] == 's';
    var s := AssetsPut(bucketArn, prefix);
    forall p | p in s.actions ensures p == "s3:PutObject" {}
  }

  lemma OneOf(v: Statement, s: Statement, present: bool)
    requires s in if present then [v] else []
    ensures present && s == v
  {
  }

  lemma ServicesOfExtras(args: RouteArgs, spec: RouteSpec, s: Statement)
    requires s in Extras(args, spec) && s != AuditMutationDeny(args.tableArn)
    ensures OnlyServices(s, OTHER_SERVICES)
  {
    var permissions := VerifiedPermissions(args.policyStoreArn);
    if s in if AnyMutates(spec.grants) then [AuditMutationDeny(args.tableArn)] else [] {
      OneOf(AuditMutationDeny(args.tableArn), s, AnyMutates(spec.grants));
    } else if s in if spec.cedar then [permissions] else [] {
      OneOf(permissions, s, spec.cedar);
      ServicesOfPermissions(args.policyStoreArn);
    } else {
      assert PutsAssets(spec);
      var assets := AssetsPut(args.assetsBucketArn, spec.assetsPutPrefix.value);
      OneOf(assets, s, true);
      ServicesOfAssets(args.assetsBucketArn, spec.assetsPutPrefix.value);
    }
  }

  lemma ServicesOfObservability(logGroupArn: string, s: Statement)
    requires s in Observability(logGroupArn)
    ensures OnlyServices(s, OTHER_SERVICES)
  {
    assert Lower("logs:CreateLogStream")[0] == 'l' && Lower("logs:PutLogEvents")[0] == 'l';
    assert Lower("xray:PutTraceSegments")[0] == 'x' && Lower("xray:PutTelemetryRecords")[0] == 'x';
    assert Lower("cloudwatch:PutMetricData")[0] == 'c';
  }

  lemma OtherStatements(args: RouteArgs, spec: RouteSpec, r: Request)
    requires r.action != "" && Lower(r.action)[0] == 'd'
    ensures forall s :: s in Observability(args.logGroupArn) ==> !Applies(s, r)
    ensures forall s :: s in Extras(args, spec) && s != AuditMutationDeny(args.tableArn) ==> !Applies(s, r)
  {
    forall s | s in Observability(args.logGroupArn) ensures !Applies(s, r) {
      ServicesOfObservability(args.logGroupArn, s);
      OtherStatement(s, r);
    }
    forall s | s in Extras(args, spec) && s != AuditMutationDeny(args.tableArn) ensures !Applies(s, r) {
      ServicesOfExtras(args, spec, s);
      OtherStatement(s, r);
    }
  }

  lemma GrantOnTable(tableArn: string, g: TableGrant, action: string, keys: seq<string>)
    requires Literal(tableArn)
    ensures Applies(GrantStatement(tableArn, g), OnItems(action, tableArn, keys)) <==>
      Table in g.on && NamesOne(g.actions, action)
  {
    var s := GrantStatement(tableArn, g);
    LikeLiteral(tableArn, tableArn);
    LikeLiteral(tableArn + "/index/GSI2", tableArn);
    LikeLiteral(tableArn + "/index/GSI3", tableArn);
    if Table in g.on {
      var i :| 0 <= i < |g.on| && g.on[i] == Table;
      assert s.resources[i] in s.resources && s.resources[i] == tableArn;
    }
    if LikeAny(s.resources, tableArn) {
      var p :| p in s.resources && Like(p, tableArn);
      var i :| 0 <= i < |g.on| && s.resources[i] == p;
      assert g.on[i] in g.on;
    }
  }

  predicate IsWrite(action: string) {
    action == "dynamodb:UpdateItem" || action == "dynamodb:DeleteItem" || action == "dynamodb:BatchWriteItem"
  }

  predicate AllAudit(keys: seq<string>) {
    forall key :: key in keys ==> Like(Within("AUDIT"), key)
  }

  /** A key with `#AUDIT#` behind its department. */
  predicate IsAuditKey(key: string) {
    "DEPT#" <= key && Contains(key[5..], "#AUDIT#")
  }

  lemma AuditKeysMean(keys: seq<string>)
    ensures AllAudit(keys) <==> forall key :: key in keys ==> IsAuditKey(key)
  {
    forall key | key in keys ensures Like(Within("AUDIT"), key) <==> IsAuditKey(key) {
      LikeInside("DEPT#", "#" + "AUDIT" + "#", key);
      assert "#" + "AUDIT" + "#" == "#AUDIT#";
    }
  }

  lemma WriteActions()
    ensures Literal(Lower(UPDATE_ITEM)) && Literal(Lower(DELETE_ITEM)) && Literal(Lower(BATCH_WRITE_ITEM))
  {
  }

  lemma DenyApplies(tableArn: string, action: string, keys: seq<string>)
    requires Literal(tableArn) && IsWrite(action)
    ensures Applies(AuditMutationDeny(tableArn), OnItems(action, tableArn, keys)) <==> AllAudit(keys)
  {
    var s := AuditMutationDeny(tableArn);
    var r := OnItems(action, tableArn, keys);
    OnTableItself(tableArn, s);
    WriteActions();
    NamesItself(s.actions, action);
    var c := s.conditions[0];
    assert c in s.conditions && ValuesOf(r, LEADING_KEYS) == keys;
    forall key | key in keys ensures LikeAny([Within("AUDIT")], key) <==> Like(Within("AUDIT"), key) {
      LikeOne(Within("AUDIT"), key);
    }
  }

  lemma WriteInitial(action: string)
    requires IsWrite(action)
    ensures action != "" && Lower(action)[0] == 'd'
  {
  }

  lemma GrantedApplies(tableArn: string, grants: seq<TableGrant>, action: string, keys: seq<string>)
    requires Literal(tableArn)
    ensures Granted(grants, action) <==>
      exists s :: s in GrantStatements(tableArn, grants) && Applies(s, OnItems(action, tableArn, keys))
  {
    var r := OnItems(action, tableArn, keys);
    var granted := GrantStatements(tableArn, grants);
    if Granted(grants, action) {
      var g :| g in grants && Table in g.on && NamesOne(g.actions, action);
      var i :| 0 <= i < |grants| && grants[i] == g;
      GrantOnTable(tableArn, g, action, keys);
      assert granted[i] in granted && Applies(granted[i], r);
    }
    if s :| s in granted && Applies(s, r) {
      var i :| 0 <= i < |granted| && granted[i] == s;
      GrantOnTable(tableArn, grants[i], action, keys);
      assert grants[i] in grants;
    }
  }

  lemma WritesAllowed(args: RouteArgs, spec: RouteSpec, action: string, keys: seq<string>)
    requires Literal(args.tableArn) && IsWrite(action)
    ensures Authorized(RolePolicy(args, spec), OnItems(action, args.tableArn, keys)) <==>
      Granted(spec.grants, action) && !(AnyMutates(spec.grants) && AllAudit(keys))
  {
    var r := OnItems(action, args.tableArn, keys);
    WriteInitial(action);
    OtherStatements(args, spec, r);
    DenyApplies(args.tableArn, action, keys);
    GrantedApplies(args.tableArn, spec.grants, action, keys);
    InPolicy(args, spec);
  }

  /** What the role may write in place: what a grant on the table names, by name or by pattern, except
      that naming UpdateItem or DeleteItem brings the deny of requests on audit rows alone. */
  lemma WritesAuthorized(args: RouteArgs, spec: RouteSpec, action: string, keys: seq<string>)
    requires Literal(args.tableArn) && IsWrite(action)
    ensures Authorized(RolePolicy(args, spec), OnItems(action, args.tableArn, keys)) <==>
      && (exists g :: g in spec.grants && Table in g.on && NamesOne(g.actions, action))
      && !(NamesInPlace(spec.grants) && forall key :: key in keys ==> IsAuditKey(key))
  {
    WritesAllowed(args, spec, action, keys);
    AuditKeysMean(keys);
  }

  lemma InPolicy(args: RouteArgs, spec: RouteSpec)
    ensures forall s :: s in RolePolicy(args, spec) <==>
      s in Observability(args.logGroupArn) || s in GrantStatements(args.tableArn, spec.grants) || s in Extras(args, spec)
    ensures AuditMutationDeny(args.tableArn) in Extras(args, spec) <==> AnyMutates(spec.grants)
    ensures forall s :: s in GrantStatements(args.tableArn, spec.grants) ==> s.effect.Allow?
  {
  }

  lemma AuditRowIsDenied(args: RouteArgs, spec: RouteSpec, action: string, deptId: string, rest: string)
    requires Literal(args.tableArn) && IsWrite(action)
    ensures Authorized(RolePolicy(args, spec), OnItem(action, args.tableArn, AuditKey(deptId, rest))) <==>
      Granted(spec.grants, action) && !AnyMutates(spec.grants)
  {
    WritesAllowed(args, spec, action, [AuditKey(deptId, rest)]);
    WithinKey(deptId, "AUDIT", rest);
  }

  /** On one audit row: UpdateItem and DeleteItem are authorized exactly when a grant on the table
      reaches them without any naming either. */
  lemma AuditRowWritesAuthorized(args: RouteArgs, spec: RouteSpec, action: string, deptId: string, rest: string)
    requires Literal(args.tableArn) && IsWrite(action)
    ensures Authorized(RolePolicy(args, spec), OnItem(action, args.tableArn, AuditKey(deptId, rest))) <==>
      (exists g :: g in spec.grants && Table in g.on && NamesOne(g.actions, action)) && !NamesInPlace(spec.grants)
  {
    AuditRowIsDenied(args, spec, action, deptId, rest);
  }

  /** The grants name their actions exactly: no wildcard, and UpdateItem and DeleteItem spelled as
      the builder looks for them; and none on the table is BatchWriteItem. */
  predicate ExactGrants(grants: seq<TableGrant>) {
    forall g, p :: g in grants && Table in g.on && p in g.actions ==>
      && Literal(p)
      && (forall action :: action in {UPDATE_ITEM, DELETE_ITEM} && Lower(p) == Lower(action) ==> p == action)
      && Lower(p) != Lower(BATCH_WRITE_ITEM)
  }

  lemma {:induction false} LowerLiteral(p: string)
    requires Literal(p)
    ensures Literal(Lower(p))
  {
    var l := Lower(p);
    forall i | 0 <= i < |l| ensures l[i] != '*' && l[i] != '?' {
      assert p[i] in p;
    }
  }

  lemma ExactlyGranted(grants: seq<TableGrant>, action: string)
    requires ExactGrants(grants) && IsWrite(action) && Granted(grants, action)
    ensures AnyMutates(grants) && action != BATCH_WRITE_ITEM
  {
    var g :| g in grants && Table in g.on && NamesOne(g.actions, action);
    var p :| p in g.actions && ActionMatches(p, action);
    LowerLiteral(p);
    LikeLiteral(Lower(p), Lower(action));
    assert Mutates(g);
  }

  // ---- Whole runs

  datatype Op =
    | Put(pk: string, sk: string, row: string)
    | Update(pk: string, sk: string, row: string)
    | Delete(pk: string, sk: string)

  /** A request of one item, a transaction of several, each authorized for itself, or a batch, which
      is one request on all its keys. */
  datatype Call = Single(op: Op) | Transaction(ops: seq<Op>) | Batch(ops: seq<Op>)

  type Rows = map<(string, string), string>

  function ActionOf(op: Op): string {
    match op
    case Put(_, _, _) => PUT_ITEM
    case Update(_, _, _) => UPDATE_ITEM
    case Delete(_, _) => DELETE_ITEM
  }

  function KeysOf(ops: seq<Op>): seq<string> {
    seq(|ops|, i requires 0 <= i < |ops| => ops[i].pk)
  }

  predicate MayCall(policy: seq<Statement>, tableArn: string, call: Call) {
    match call
    case Single(op) => Authorized(policy, OnItem(ActionOf(op), tableArn, op.pk))
    case Transaction(ops) => forall op :: op in ops ==> Authorized(policy, OnItem(ActionOf(op), tableArn, op.pk))
    case Batch(ops) => Authorized(policy, OnItems(BATCH_WRITE_ITEM, tableArn, KeysOf(ops)))
  }

  function OpsOf(call: Call): seq<Op> {
    if call.Single? then [call.op] else call.ops
  }

  function Written(rows: Rows, ops: seq<Op>): Rows
    decreases |ops|
  {
    if ops == [] then rows
    else
      var op := ops[0];
      Written(if op.Delete? then rows - {(op.pk, op.sk)} else rows[(op.pk, op.sk) := op.row], ops[1..])
  }

  /** Puts go to keys that hold no row. */
  predicate FreshPuts(rows: Rows, ops: seq<Op>) {
    forall op :: op in ops && op.Put? ==> (op.pk, op.sk) !in rows
  }

  ghost predicate Run(policy: seq<Statement>, tableArn: string, rows: Rows, calls: seq<Call>, end: Rows)
    decreases |calls|
  {
    if calls == [] then end == rows
    else
      && MayCall(policy, tableArn, calls[0]) && FreshPuts(rows, OpsOf(calls[0]))
      && Run(policy, tableArn, Written(rows, OpsOf(calls[0])), calls[1..], end)
  }

  lemma {:induction false} WrittenElsewhere(rows: Rows, ops: seq<Op>, key: (string, string))
    requires forall op :: op in ops ==> (op.pk, op.sk) != key
    ensures key in Written(rows, ops) <==> key in rows
    ensures key in rows ==> Written(rows, ops)[key] == rows[key]
    decreases |ops|
  {
    if ops != [] {
      var op := ops[0];
      assert op in ops;
      WrittenElsewhere(if op.Delete? then rows - {(op.pk, op.sk)} else rows[(op.pk, op.sk) := op.row], ops[1..], key);
    }
  }

  lemma OneOpIsElsewhere(
    args: RouteArgs, spec: RouteSpec, rows: Rows, op: Op, deptId: string, rest: string, sk: string)
    requires Literal(args.tableArn) && ExactGrants(spec.grants)
    requires Authorized(RolePolicy(args, spec), OnItem(ActionOf(op), args.tableArn, op.pk))
    requires op.Put? ==> (op.pk, op.sk) !in rows
    requires (AuditKey(deptId, rest), sk) in rows
    ensures (op.pk, op.sk) != (AuditKey(deptId, rest), sk)
  {
    if !op.Put? && op.pk == AuditKey(deptId, rest) {
      AuditRowIsDenied(args, spec, ActionOf(op), deptId, rest);
      ExactlyGranted(spec.grants, ActionOf(op));
    }
  }

  lemma CallKeepsAuditRow(
    args: RouteArgs, spec: RouteSpec, rows: Rows, call: Call, deptId: string, rest: string, sk: string)
    requires Literal(args.tableArn) && ExactGrants(spec.grants)
    requires MayCall(RolePolicy(args, spec), args.tableArn, call) && FreshPuts(rows, OpsOf(call))
    requires (AuditKey(deptId, rest), sk) in rows
    ensures var key := (AuditKey(deptId, rest), sk); var after := Written(rows, OpsOf(call));
      key in after && after[key] == rows[key]
  {
    if call.Batch? {
      WritesAllowed(args, spec, BATCH_WRITE_ITEM, KeysOf(call.ops));
      ExactlyGranted(spec.grants, BATCH_WRITE_ITEM);
    } else {
      forall op | op in OpsOf(call) ensures (op.pk, op.sk) != (AuditKey(deptId, rest), sk) {
        OneOpIsElsewhere(args, spec, rows, op, deptId, rest, sk);
      }
      WrittenElsewhere(rows, OpsOf(call), (AuditKey(deptId, rest), sk));
    }
  }

  /** Append-only: over any run of calls the role is authorized for, with puts to free keys, every
      audit row stays as it was written. */
  lemma {:induction false} AuditRowsStay(
    args: RouteArgs, spec: RouteSpec, rows: Rows, calls: seq<Call>, end: Rows, deptId: string, rest: string, sk: string)
    requires Literal(args.tableArn) && ExactGrants(spec.grants)
    requires Run(RolePolicy(args, spec), args.tableArn, rows, calls, end)
    requires (AuditKey(deptId, rest), sk) in rows
    ensures (AuditKey(deptId, rest), sk) in end && end[(AuditKey(deptId, rest), sk)] == rows[(AuditKey(deptId, rest), sk)]
    decreases |calls|
  {
    if calls != [] {
      CallKeepsAuditRow(args, spec, rows, calls[0], deptId, rest, sk);
      AuditRowsStay(args, spec, Written(rows, OpsOf(calls[0])), calls[1..], end, deptId, rest, sk);
    }
  }

  /** The deny is about requests on audit rows alone: a batch that also holds a row of another kind
      gets past it, where a grant names BatchWriteItem. */
  lemma MixedBatchGetsPast(args: RouteArgs, spec: RouteSpec, deptId: string, rest: string, other: string)
    requires Literal(args.tableArn) && Granted(spec.grants, BATCH_WRITE_ITEM) && !Like(Within("AUDIT"), other)
    ensures Authorized(RolePolicy(args, spec), OnItems(BATCH_WRITE_ITEM, args.tableArn, [AuditKey(deptId, rest), other]))
  {
    WritesAllowed(args, spec, BATCH_WRITE_ITEM, [AuditKey(deptId, rest), other]);
    assert other in [AuditKey(deptId, rest), other];
  }
}
