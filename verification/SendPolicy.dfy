/** The policy of a queue that one EventBridge rule may send to, evaluated as the service does. */
module SendPolicy {
  import opened Glob
  import opened Iam

  const EVENTS_SERVICE := "events.amazonaws.com"
  const SEND_MESSAGE := "sqs:SendMessage"

  /** A statement of a queue's policy: who may do what to which queue, from which source. */
  datatype SendStatement = SendStatement(principal: string, action: string, resource: string, sourceArn: string)

  /** The text up to the first colon. */
  function Head(s: string): (h: string)
    ensures |h| <= |s| && ':' !in h
    ensures |h| < |s| ==> s[|h|] == ':' && s == h + ":" + s[|h| + 1..]
    ensures |h| == |s| ==> s == h
  {
    if s == "" || s[0] == ':' then ""
    else
      var rest := Head(s[1..]);
      [s[0]] + rest
  }

  /** The parts of an ARN: at most `n`, the last with whatever colons are left. */
  function Components(s: string, n: nat): seq<string>
    requires n > 0
    decreases n
  {
    var h := Head(s);
    if n == 1 || |h| == |s| then [s] else [h] + Components(s[|h| + 1..], n - 1)
  }

  const ARN_PARTS: nat := 6

  predicate IsArn(s: string) {
    |Components(s, ARN_PARTS)| == ARN_PARTS
  }

  function Colons(s: string): nat {
    if s == "" then 0 else Colons(s[1..]) + if s[0] == ':' then 1 else 0
  }

  lemma {:induction false} ColonsSplit(a: string, b: string)
    ensures Colons(a + b) == Colons(a) + Colons(b)
  {
    if a == "" {
      assert a + b == b;
    } else {
      assert (a + b)[1..] == a[1..] + b;
      ColonsSplit(a[1..], b);
    }
  }

  lemma {:induction false} NoColons(s: string)
    requires ':' !in s
    ensures Colons(s) == 0
  {
    if s != "" {
      NoColons(s[1..]);
    }
  }

  lemma {:induction false} PartsAndColons(s: string, n: nat)
    requires n > 0
    ensures |Components(s, n)| == if Colons(s) < n then Colons(s) + 1 else n
    decreases n
  {
    var h := Head(s);
    NoColons(h);
    if |h| < |s| {
      var rest := s[|h| + 1..];
      ColonsSplit(h, ":" + rest);
      assert s == h + (":" + rest) && (":" + rest)[1..] == rest;
      if n > 1 {
        PartsAndColons(rest, n - 1);
      }
    }
  }

  /** Six parts need five colons. */
  lemma ArnHasFiveColons(s: string)
    ensures IsArn(s) <==> Colons(s) >= 5
  {
    PartsAndColons(s, ARN_PARTS);
  }

  predicate PartsMatch(patterns: seq<string>, parts: seq<string>) {
    |patterns| == |parts| && forall i :: 0 <= i < |parts| ==> Like(patterns[i], parts[i])
  }

  /** `ArnEquals`: each of the six parts is matched by itself. */
  predicate ArnEquals(pattern: string, arn: string) {
    IsArn(pattern) && IsArn(arn) && PartsMatch(Components(pattern, ARN_PARTS), Components(arn, ARN_PARTS))
  }

  predicate SendAllowed(
    policy: seq<SendStatement>, principal: string, action: string, resource: string, source: string)
  {
    exists st :: st in policy && st.principal == principal && ActionMatches(st.action, action)
      && Like(st.resource, resource) && ArnEquals(st.sourceArn, source)
  }

  function RuleSendPolicy(queueArn: string, ruleArn: string): seq<SendStatement> {
    [SendStatement(EVENTS_SERVICE, SEND_MESSAGE, queueArn, ruleArn)]
  }

  lemma {:induction false} ComponentsInjective(a: string, b: string, n: nat)
    requires n > 0 && Components(a, n) == Components(b, n)
    ensures a == b
    decreases n
  {
    var h, g := Head(a), Head(b);
    if n > 1 && |h| < |a| && |g| < |b| {
      assert Components(a, n)[0] == h && Components(b, n)[0] == g;
      assert Components(a, n)[1..] == Components(a[|h| + 1..], n - 1);
      assert Components(b, n)[1..] == Components(b[|g| + 1..], n - 1);
      ComponentsInjective(a[|h| + 1..], b[|g| + 1..], n - 1);
    } else {
      ComponentsLength(a, n);
      ComponentsLength(b, n);
      assert Components(a, n)[0] == Components(b, n)[0];
    }
  }

  lemma ComponentsLength(s: string, n: nat)
    requires n > 0
    ensures |Components(s, n)| > 0
    ensures |Components(s, n)| == 1 <==> n == 1 || |Head(s)| == |s|
  {
  }

  lemma LiteralSplit(s: string, k: nat)
    requires Literal(s) && k < |s|
    ensures Literal(s[..k]) && Literal(s[k + 1..])
  {
    assert forall c :: c in s[..k] ==> c in s;
    assert forall c :: c in s[k + 1..] ==> c in s;
  }

  lemma {:induction false} ComponentsLiteral(s: string, n: nat)
    requires n > 0 && Literal(s)
    ensures forall i :: 0 <= i < |Components(s, n)| ==> Literal(Components(s, n)[i])
    decreases n
  {
    var h := Head(s);
    if n > 1 && |h| < |s| {
      LiteralSplit(s, |h|);
      assert s[..|h|] == h;
      ComponentsLiteral(s[|h| + 1..], n - 1);
    }
  }

  lemma PartsMatchLiteral(patterns: seq<string>, parts: seq<string>)
    requires forall i :: 0 <= i < |patterns| ==> Literal(patterns[i])
    ensures PartsMatch(patterns, parts) <==> parts == patterns
  {
    if |patterns| == |parts| {
      forall i | 0 <= i < |parts| ensures Like(patterns[i], parts[i]) <==> parts[i] == patterns[i] {
        LikeLiteral(patterns[i], parts[i]);
      }
    }
  }

  lemma ComponentsMatchLiteral(pattern: string, arn: string, n: nat)
    requires n > 0 && Literal(pattern)
    ensures PartsMatch(Components(pattern, n), Components(arn, n)) <==> arn == pattern
  {
    ComponentsLiteral(pattern, n);
    PartsMatchLiteral(Components(pattern, n), Components(arn, n));
    if Components(arn, n) == Components(pattern, n) {
      ComponentsInjective(arn, pattern, n);
    }
  }

  lemma ArnEqualsLiteral(pattern: string, arn: string)
    requires Literal(pattern) && IsArn(pattern)
    ensures ArnEquals(pattern, arn) <==> arn == pattern
  {
    ComponentsMatchLiteral(pattern, arn, ARN_PARTS);
  }

  lemma SendActionLiteral()
    ensures Literal(Lower(SEND_MESSAGE))
  {
  }

  /** A send is authorized exactly when EventBridge does it, it is a send, to that queue, for that
      rule. */
  lemma OnlyTheRuleMaySend(
    queueArn: string, ruleArn: string, principal: string, action: string, resource: string, source: string)
    requires Literal(queueArn) && Literal(ruleArn) && IsArn(ruleArn)
    ensures SendAllowed(RuleSendPolicy(queueArn, ruleArn), principal, action, resource, source) <==>
      && principal == "events.amazonaws.com" && Lower(action) == Lower("sqs:SendMessage")
      && resource == queueArn && source == ruleArn
  {
    SendActionLiteral();
    LikeLiteral(Lower(SEND_MESSAGE), Lower(action));
    LikeLiteral(queueArn, resource);
    ArnEqualsLiteral(ruleArn, source);
    OneStatement(SendStatement(EVENTS_SERVICE, SEND_MESSAGE, queueArn, ruleArn), principal, action, resource, source);
  }

  lemma OneStatement(st: SendStatement, principal: string, action: string, resource: string, source: string)
    ensures SendAllowed([st], principal, action, resource, source) <==>
      && st.principal == principal && ActionMatches(st.action, action)
      && Like(st.resource, resource) && ArnEquals(st.sourceArn, source)
  {
    assert st in [st];
  }

  /** The ARN of a bus, and of a rule on it, behind what the two share. */
  function BusArn(prefix: string, bus: string): string {
    prefix + ("event-bus/" + bus)
  }

  function RuleArn(prefix: string, bus: string, rule: string): string {
    prefix + ("rule/" + bus + "/" + rule)
  }

  lemma BusIsNotItsRule(prefix: string, bus: string, rule: string)
    ensures BusArn(prefix, bus) != RuleArn(prefix, bus, rule)
  {
    assert BusArn(prefix, bus)[|prefix|] == 'e' && RuleArn(prefix, bus, rule)[|prefix|] == 'r';
  }
}
