/** Evaluation of IAM policies: identity policies, a permissions boundary, explicit denies, and the
    condition operators the statements here use. */
module Iam {
  import opened Glob

  datatype Effect = Allow | Deny

  /** A condition on one context key. The `ForAllValues` operators ask it of every value of the key,
      and so hold where the key is absent. */
  datatype Condition =
    | ForAllValuesLike(key: string, patterns: seq<string>)
    | ForAllValuesNotLike(key: string, patterns: seq<string>)
    | StringEquals(key: string, values: seq<string>)

  datatype Statement = Statement(
    sid: string,
    effect: Effect,
    actions: seq<string>,
    resources: seq<string>,
    conditions: seq<Condition>)

  datatype Request = Request(action: string, resource: string, context: map<string, seq<string>>)

  function Lower(s: string): (l: string)
    ensures |l| == |s|
  {
    seq(|s|, i requires 0 <= i < |s| => if 'A' <= s[i] <= 'Z' then s[i] - 'A' + 'a' else s[i])
  }

  /** Action names match whatever their case. */
  predicate ActionMatches(pattern: string, action: string) {
    Like(Lower(pattern), Lower(action))
  }

  predicate LikeAny(patterns: seq<string>, value: string) {
    exists p :: p in patterns && Like(p, value)
  }

  function ValuesOf(r: Request, key: string): seq<string> {
    if key in r.context then r.context[key] else []
  }

  predicate Satisfied(c: Condition, r: Request) {
    match c
    case ForAllValuesLike(key, patterns) => forall v :: v in ValuesOf(r, key) ==> LikeAny(patterns, v)
    case ForAllValuesNotLike(key, patterns) => forall v :: v in ValuesOf(r, key) ==> !LikeAny(patterns, v)
    case StringEquals(key, values) => exists v :: v in ValuesOf(r, key) && v in values
  }

  predicate NamesAction(s: Statement, action: string) {
    exists p :: p in s.actions && ActionMatches(p, action)
  }

  predicate Applies(s: Statement, r: Request) {
    && NamesAction(s, r.action)
    && LikeAny(s.resources, r.resource)
    && forall c :: c in s.conditions ==> Satisfied(c, r)
  }

  predicate Allowed(policy: seq<Statement>, r: Request) {
    exists s :: s in policy && s.effect.Allow? && Applies(s, r)
  }

  predicate Denied(policy: seq<Statement>, r: Request) {
    exists s :: s in policy && s.effect.Deny? && Applies(s, r)
  }

  predicate Authorized(identity: seq<Statement>, r: Request) {
    Allowed(identity, r) && !Denied(identity, r)
  }

  /** A role with a permissions boundary: both have to allow, and neither may deny. */
  predicate AuthorizedWithin(identity: seq<Statement>, boundary: seq<Statement>, r: Request) {
    Authorized(identity, r) && Authorized(boundary, r)
  }

  // ---- The alerting-plane boundary

  function TableAndParts(arn: string): seq<string> {
    [arn, arn + "/index/*", arn + "/stream/*"]
  }

  function AlertingPlaneBoundary(platformTableArn: string, incidentTableArn: string): seq<Statement> {
    [Statement("AllowEverythingElse", Allow, ["*"], ["*"], []),
     Statement("DenyNonAlertingTables", Deny, ["dynamodb:*"],
               TableAndParts(platformTableArn) + TableAndParts(incidentTableArn), [])]
  }

  /** The table, one of its indexes or one of its streams, under any name. */
  predicate OnTable(arn: string, resource: string) {
    resource == arn || arn + "/index/" <= resource || arn + "/stream/" <= resource
  }

  predicate IsDynamoDb(action: string) {
    "dynamodb:" <= Lower(action)
  }

  lemma LikeTableParts(arn: string, resource: string)
    requires Literal(arn)
    ensures LikeAny(TableAndParts(arn), resource) <==> OnTable(arn, resource)
  {
    LikeLiteral(arn, resource);
    LikeFrom(arn + "/index/", resource);
    LikeFrom(arn + "/stream/", resource);
    assert arn + "/index/" + "*" == arn + "/index/*" && arn + "/stream/" + "*" == arn + "/stream/*";
    var ps := TableAndParts(arn);
    assert ps[0] in ps && ps[1] in ps && ps[2] in ps;
  }

  lemma LikeAnySplit(a: seq<string>, b: seq<string>, value: string)
    ensures LikeAny(a + b, value) <==> LikeAny(a, value) || LikeAny(b, value)
  {
    assert forall p :: p in a + b <==> p in a || p in b;
  }

  lemma OneAction(s: Statement, pattern: string, action: string)
    requires s.actions == [pattern]
    ensures NamesAction(s, action) <==> ActionMatches(pattern, action)
  {
    assert pattern in s.actions;
  }

  /** For every identity policy: a role behind the boundary may do exactly what its policy allows,
      except DynamoDB actions on the two tables, their indexes and their streams. */
  lemma BoundaryIsExact(identity: seq<Statement>, platformTableArn: string, incidentTableArn: string, r: Request)
    requires Literal(platformTableArn) && Literal(incidentTableArn)
    ensures AuthorizedWithin(identity, AlertingPlaneBoundary(platformTableArn, incidentTableArn), r) <==>
      && Authorized(identity, r)
      && !(IsDynamoDb(r.action) && (OnTable(platformTableArn, r.resource) || OnTable(incidentTableArn, r.resource)))
  {
    var boundary := AlertingPlaneBoundary(platformTableArn, incidentTableArn);
    var allow, deny := boundary[0], boundary[1];
    OneAction(allow, "*", r.action);
    OneAction(deny, "dynamodb:*", r.action);
    assert Lower("*") == "*" && Lower("dynamodb:*") == "dynamodb:" + "*";
    LikeAnything(Lower(r.action));
    LikeAnything(r.resource);
    LikeFrom("dynamodb:", Lower(r.action));
    assert LikeAny(allow.resources, r.resource) by { assert "*" in allow.resources; }
    LikeAnySplit(TableAndParts(platformTableArn), TableAndParts(incidentTableArn), r.resource);
    LikeTableParts(platformTableArn, r.resource);
    LikeTableParts(incidentTableArn, r.resource);
    assert allow in boundary && deny in boundary;
    assert forall s :: s in boundary ==> s == allow || s == deny;
  }
}
