/** Statements that confine a role to partitions of a shared table by the leading key of each item. */
module TableGrants {
  import opened Glob
  import opened Iam
  import opened Delimited

  const LEADING_KEYS := "dynamodb:LeadingKeys"

  const GET_ITEM := "dynamodb:GetItem"
  const PUT_ITEM := "dynamodb:PutItem"
  const UPDATE_ITEM := "dynamodb:UpdateItem"
  const CONDITION_CHECK_ITEM := "dynamodb:ConditionCheckItem"

  /** A request on items of the table with these partition keys. */
  function OnItems(action: string, tableArn: string, keys: seq<string>): Request {
    Request(action, tableArn, map[LEADING_KEYS := keys])
  }

  function OnItem(action: string, tableArn: string, key: string): Request {
    OnItems(action, tableArn, [key])
  }

  /** The parts of a dept-scoped key behind its department. */
  function DeptKey(deptId: string, tail: string): string {
    "DEPT#" + (deptId + tail)
  }

  function KeyedStatement(sid: string, actions: seq<string>, tableArn: string, patterns: seq<string>): Statement {
    Statement(sid, Allow, actions, [tableArn], [ForAllValuesLike(LEADING_KEYS, patterns)])
  }

  lemma OnTableItself(tableArn: string, s: Statement)
    requires Literal(tableArn) && s.resources == [tableArn]
    ensures LikeAny(s.resources, tableArn)
  {
    LikeLiteral(tableArn, tableArn);
    assert tableArn in s.resources;
  }

  /** On one item of the table, a keyed statement applies when it names the action and one of its
      patterns takes the key. */
  lemma KeyedApplies(
    sid: string, actions: seq<string>, tableArn: string, patterns: seq<string>, action: string, key: string)
    requires Literal(tableArn)
    ensures var s := KeyedStatement(sid, actions, tableArn, patterns);
      Applies(s, OnItem(action, tableArn, key)) <==> NamesAction(s, action) && LikeAny(patterns, key)
  {
    var s := KeyedStatement(sid, actions, tableArn, patterns);
    var r := OnItem(action, tableArn, key);
    OnTableItself(tableArn, s);
    var c := s.conditions[0];
    assert ValuesOf(r, LEADING_KEYS) == [key] && key in ValuesOf(r, LEADING_KEYS);
    assert c in s.conditions;
    assert forall d :: d in s.conditions ==> d == c;
  }

  // ---- The department's own partition

  function DeptPartitionStatement(sid: string, actions: seq<string>, tableArn: string): Statement {
    Statement(sid, Allow, actions, [tableArn],
              [ForAllValuesLike(LEADING_KEYS, ["DEPT#*"]), ForAllValuesNotLike(LEADING_KEYS, ["DEPT#*#*"])])
  }

  /** A department's own partition: its key has nothing behind the department. */
  predicate IsDeptPartition(key: string) {
    "DEPT#" <= key && Free(key[5..])
  }

  lemma LikeOne(pattern: string, value: string)
    ensures LikeAny([pattern], value) <==> Like(pattern, value)
  {
    assert pattern in [pattern];
  }

  lemma DeptPartitionLike(key: string)
    ensures LikeAny(["DEPT#*"], key) && !LikeAny(["DEPT#*#*"], key) <==> IsDeptPartition(key)
  {
    LikeOne("DEPT#*", key);
    LikeOne("DEPT#*#*", key);
    assert "DEPT#" + "*" == "DEPT#*" && "DEPT#" + ("*" + ("#" + "*")) == "DEPT#*#*";
    LikeFrom("DEPT#", key);
    LikeInside("DEPT#", "#", key);
    if "DEPT#" <= key {
      var rest := key[5..];
      if DELIMITER in rest {
        var i :| 0 <= i < |rest| && rest[i] == DELIMITER;
        assert "#" <= rest[i..];
      }
      if i :| 0 <= i <= |rest| && "#" <= rest[i..] {
        assert rest[i] == DELIMITER;
      }
    }
  }

  /** A request of any number of keys is admitted exactly when each of them is a department's own
      partition, so no request reaches any other row. */
  lemma DeptPartitionIsExact(
    sid: string, actions: seq<string>, tableArn: string, action: string, keys: seq<string>)
    requires Literal(tableArn)
    ensures var s := DeptPartitionStatement(sid, actions, tableArn);
      Authorized([s], OnItems(action, tableArn, keys)) <==>
        NamesAction(s, action) && forall key :: key in keys ==> IsDeptPartition(key)
  {
    var s := DeptPartitionStatement(sid, actions, tableArn);
    var r := OnItems(action, tableArn, keys);
    OnTableItself(tableArn, s);
    var like, notLike := s.conditions[0], s.conditions[1];
    assert like in s.conditions && notLike in s.conditions;
    assert forall c :: c in s.conditions ==> c == like || c == notLike;
    assert ValuesOf(r, LEADING_KEYS) == keys;
    forall key | key in keys
      ensures LikeAny(["DEPT#*"], key) && !LikeAny(["DEPT#*#*"], key) <==> IsDeptPartition(key)
    {
      DeptPartitionLike(key);
    }
    assert s in [s];
  }

  // ---- CAD ingress

  /** `DEPT#*#word` */
  function Ending(word: string): string {
    "DEPT#" + ("*" + ("#" + word))
  }

  /** `DEPT#*#word#*` */
  function Within(word: string): string {
    "DEPT#" + ("*" + (("#" + word + "#") + "*"))
  }

  const CAD_SOURCE_COPY_KEYS := [Ending("CAD_INGRESS")]
  const CAD_REPLAY_KEYS := [Within("CAD_REPLAY")]
  const CAD_READ_KEYS := [Within("DISPATCH_IDEMPOTENCY"), Within("DISPATCH")]
  const CAD_WRITE_KEYS :=
    [Within("DISPATCH_IDEMPOTENCY"), Within("DISPATCH"), Ending("OUTBOX"), Ending("CAD_UPDATE_PENDING")]

  function CadIngressTableStatements(tableArn: string): seq<Statement> {
    [KeyedStatement("CadSourceCopyRead", [GET_ITEM], tableArn, CAD_SOURCE_COPY_KEYS),
     KeyedStatement("CadReplayMarkers", [GET_ITEM, PUT_ITEM], tableArn, CAD_REPLAY_KEYS),
     KeyedStatement("CadUpdateRead", [GET_ITEM], tableArn, CAD_READ_KEYS),
     KeyedStatement("CadDispatchWrite", [PUT_ITEM, UPDATE_ITEM, CONDITION_CHECK_ITEM], tableArn, CAD_WRITE_KEYS)]
  }

  predicate NamesOne(actions: seq<string>, action: string) {
    exists p :: p in actions && ActionMatches(p, action)
  }

  /** What the four statements admit on one item. */
  lemma CadIngressAdmits(tableArn: string, action: string, key: string)
    requires Literal(tableArn)
    ensures Authorized(CadIngressTableStatements(tableArn), OnItem(action, tableArn, key)) <==>
      || (NamesOne([GET_ITEM], action) && LikeAny(CAD_SOURCE_COPY_KEYS, key))
      || (NamesOne([GET_ITEM, PUT_ITEM], action) && LikeAny(CAD_REPLAY_KEYS, key))
      || (NamesOne([GET_ITEM], action) && LikeAny(CAD_READ_KEYS, key))
      || (NamesOne([PUT_ITEM, UPDATE_ITEM, CONDITION_CHECK_ITEM], action) && LikeAny(CAD_WRITE_KEYS, key))
  {
    var ss := CadIngressTableStatements(tableArn);
    KeyedApplies("CadSourceCopyRead", [GET_ITEM], tableArn, CAD_SOURCE_COPY_KEYS, action, key);
    KeyedApplies("CadReplayMarkers", [GET_ITEM, PUT_ITEM], tableArn, CAD_REPLAY_KEYS, action, key);
    KeyedApplies("CadUpdateRead", [GET_ITEM], tableArn, CAD_READ_KEYS, action, key);
    KeyedApplies("CadDispatchWrite", [PUT_ITEM, UPDATE_ITEM, CONDITION_CHECK_ITEM], tableArn, CAD_WRITE_KEYS, action, key);
    assert ss[0] in ss && ss[1] in ss && ss[2] in ss && ss[3] in ss;
    assert forall s :: s in ss ==> s == ss[0] || s == ss[1] || s == ss[2] || s == ss[3];
  }

  // ---- Patterns against keys

  lemma WithinMeans(word: string, key: string)
    requires Literal(word)
    ensures Like(Within(word), key) <==> "DEPT#" <= key && Contains(key[5..], "#" + word + "#")
  {
    LikeInside("DEPT#", "#" + word + "#", key);
  }

  lemma EndingMeans(word: string, key: string)
    requires Literal(word)
    ensures Like(Ending(word), key) <==> "DEPT#" <= key && EndsWith(key[5..], "#" + word)
  {
    LikeAround("DEPT#", "#" + word, key);
  }

  lemma CadWords()
    ensures Literal("CAD_INGRESS") && Literal("CAD_REPLAY") && Literal("DISPATCH_IDEMPOTENCY")
    ensures Literal("DISPATCH") && Literal("OUTBOX") && Literal("CAD_UPDATE_PENDING")
  {
  }

  /** A partition of the lock or of the dispatch. */
  predicate IsDispatchKey(rest: string) {
    Contains(rest, "#DISPATCH_IDEMPOTENCY#") || Contains(rest, "#DISPATCH#")
  }

  lemma CadKeysMean(key: string)
    ensures LikeAny(CAD_SOURCE_COPY_KEYS, key) <==> "DEPT#" <= key && EndsWith(key[5..], "#CAD_INGRESS")
    ensures LikeAny(CAD_REPLAY_KEYS, key) <==> "DEPT#" <= key && Contains(key[5..], "#CAD_REPLAY#")
  {
    CadWords();
    EndingMeans("CAD_INGRESS", key);
    WithinMeans("CAD_REPLAY", key);
    assert "#" + "CAD_INGRESS" == "#CAD_INGRESS" && "#" + "CAD_REPLAY" + "#" == "#CAD_REPLAY#";
    LikeOne(Ending("CAD_INGRESS"), key);
    LikeOne(Within("CAD_REPLAY"), key);
  }

  lemma LikeTwo(a: string, b: string, value: string)
    ensures LikeAny([a, b], value) <==> Like(a, value) || Like(b, value)
  {
    assert a in [a, b] && b in [a, b];
  }

  lemma DispatchKeysMean(key: string)
    ensures LikeAny([Within("DISPATCH_IDEMPOTENCY"), Within("DISPATCH")], key) <==>
      "DEPT#" <= key && IsDispatchKey(key[5..])
  {
    CadWords();
    WithinMeans("DISPATCH_IDEMPOTENCY", key);
    WithinMeans("DISPATCH", key);
    assert "#" + "DISPATCH_IDEMPOTENCY" + "#" == "#DISPATCH_IDEMPOTENCY#" && "#" + "DISPATCH" + "#" == "#DISPATCH#";
    LikeTwo(Within("DISPATCH_IDEMPOTENCY"), Within("DISPATCH"), key);
  }

  lemma QueueKeysMean(key: string)
    ensures LikeAny([Ending("OUTBOX"), Ending("CAD_UPDATE_PENDING")], key) <==>
      "DEPT#" <= key && (EndsWith(key[5..], "#OUTBOX") || EndsWith(key[5..], "#CAD_UPDATE_PENDING"))
  {
    CadWords();
    EndingMeans("OUTBOX", key);
    EndingMeans("CAD_UPDATE_PENDING", key);
    assert "#" + "OUTBOX" == "#OUTBOX" && "#" + "CAD_UPDATE_PENDING" == "#CAD_UPDATE_PENDING";
    LikeTwo(Ending("OUTBOX"), Ending("CAD_UPDATE_PENDING"), key);
  }

  lemma NamesOneOf(actions: seq<string>, action: string)
    requires forall p :: p in actions ==> Literal(Lower(p))
    ensures NamesOne(actions, action) <==> exists p :: p in actions && Lower(p) == Lower(action)
  {
    forall p | p in actions ensures ActionMatches(p, action) <==> Lower(p) == Lower(action) {
      LikeLiteral(Lower(p), Lower(action));
    }
  }

  lemma CadActionsMean(action: string)
    ensures NamesOne([GET_ITEM], action) <==> Lower(action) == Lower(GET_ITEM)
    ensures NamesOne([GET_ITEM, PUT_ITEM], action) <==>
      Lower(action) == Lower(GET_ITEM) || Lower(action) == Lower(PUT_ITEM)
    ensures NamesOne([PUT_ITEM, UPDATE_ITEM, CONDITION_CHECK_ITEM], action) <==>
      Lower(action) == Lower(PUT_ITEM) || Lower(action) == Lower(UPDATE_ITEM)
      || Lower(action) == Lower(CONDITION_CHECK_ITEM)
  {
    CadActions();
    NamesOneOf([GET_ITEM], action);
    NamesOneOf([GET_ITEM, PUT_ITEM], action);
    NamesOneOf([PUT_ITEM, UPDATE_ITEM, CONDITION_CHECK_ITEM], action);
    assert GET_ITEM in [GET_ITEM] && GET_ITEM in [GET_ITEM, PUT_ITEM] && PUT_ITEM in [GET_ITEM, PUT_ITEM];
    var writes := [PUT_ITEM, UPDATE_ITEM, CONDITION_CHECK_ITEM];
    assert writes[0] in writes && writes[1] in writes && writes[2] in writes;
  }

  /** Everything the four statements admit, for every action and every key: reads of the source copy,
      replay markers, locks and dispatches; puts of replay markers; and puts, updates and condition
      checks of locks, dispatches, outbox rows and pending markers. */
  lemma CadIngressExactly(tableArn: string, action: string, key: string)
    requires Literal(tableArn)
    ensures Authorized(CadIngressTableStatements(tableArn), OnItem(action, tableArn, key)) <==>
      && "DEPT#" <= key
      && var rest, a := key[5..], Lower(action);
         || (a == Lower("dynamodb:GetItem")
             && (EndsWith(rest, "#CAD_INGRESS") || Contains(rest, "#CAD_REPLAY#") || IsDispatchKey(rest)))
         || (a == Lower("dynamodb:PutItem") && Contains(rest, "#CAD_REPLAY#"))
         || ((a == Lower("dynamodb:PutItem") || a == Lower("dynamodb:UpdateItem") || a == Lower("dynamodb:ConditionCheckItem"))
             && (IsDispatchKey(rest) || EndsWith(rest, "#OUTBOX") || EndsWith(rest, "#CAD_UPDATE_PENDING")))
  {
    CadIngressAdmits(tableArn, action, key);
    CadActionsMean(action);
    CadKeysMean(key);
    DispatchKeysMean(key);
    QueueKeysMean(key);
    assert CAD_WRITE_KEYS == CAD_READ_KEYS + [Ending("OUTBOX"), Ending("CAD_UPDATE_PENDING")];
    LikeAnySplit(CAD_READ_KEYS, [Ending("OUTBOX"), Ending("CAD_UPDATE_PENDING")], key);
  }

  lemma KeyEnding(deptId: string, tail: string, word: string)
    requires Literal(word)
    ensures Like(Ending(word), DeptKey(deptId, tail)) <==> EndsWith(deptId + tail, "#" + word)
  {
    LikeAround("DEPT#", "#" + word, DeptKey(deptId, tail));
    assert DeptKey(deptId, tail)[5..] == deptId + tail;
  }

  lemma KeyWithin(deptId: string, tail: string, word: string)
    requires Literal(word)
    ensures Like(Within(word), DeptKey(deptId, tail)) <==> Contains(deptId + tail, "#" + word + "#")
  {
    LikeInside("DEPT#", "#" + word + "#", DeptKey(deptId, tail));
    assert DeptKey(deptId, tail)[5..] == deptId + tail;
  }

  /** A key with the delimited word behind its department. */
  lemma WithinKey(deptId: string, word: string, rest: string)
    requires Literal(word)
    ensures Like(Within(word), DeptKey(deptId, "#" + word + "#" + rest))
  {
    var part := "#" + word + "#";
    KeyWithin(deptId, part + rest, word);
    assert part <= (deptId + (part + rest))[|deptId|..];
  }

  /** A key that ends in a delimiter and a word without one ends in that word alone. */
  lemma EndingKey(deptId: string, before: string, last: string, word: string)
    requires Literal(word) && Free(word) && Free(last)
    ensures Like(Ending(word), DeptKey(deptId, before + ("#" + last))) <==> last == word
  {
    KeyEnding(deptId, before + ("#" + last), word);
    assert deptId + (before + ("#" + last)) == (deptId + before) + ("#" + last);
    EndsWithLastWord(deptId + before, last, word);
  }

  lemma FreeAt(s: string)
    requires Free(s)
    ensures forall k :: 0 <= k < |s| ==> s[k] != DELIMITER
  {
  }

  lemma EndsWithLastWord(before: string, last: string, word: string)
    requires Free(last) && Free(word)
    ensures EndsWith(before + ("#" + last), "#" + word) <==> last == word
  {
    var text, suffix := before + ("#" + last), "#" + word;
    FreeAt(last);
    FreeAt(word);
    assert text[|before|] == '#' && text[|before| + 1..] == last;
    assert forall k :: |before| < k < |text| ==> text[k] == last[k - |before| - 1];
    if EndsWith(text, suffix) {
      var start := |text| - |suffix|;
      assert text[start..][0] == '#';
      assert forall k :: start < k < |text| ==> text[k] == text[start..][k - start] == word[k - start - 1];
      assert start == |before|;
      assert text[start..][1..] == word;
    }
  }

  /** A key with one delimiter behind its department holds no word delimited on both sides. */
  lemma NotWithinKey(deptId: string, last: string, word: string)
    requires Free(deptId) && Free(last) && Literal(word)
    ensures !Like(Within(word), DeptKey(deptId, "#" + last))
  {
    KeyWithin(deptId, "#" + last, word);
    var text, part := deptId + ("#" + last), "#" + word + "#";
    FreeAt(deptId);
    FreeAt(last);
    assert forall k :: 0 <= k < |text| && text[k] == '#' ==> k == |deptId|;
    assert part[0] == '#' && part[|part| - 1] == '#' && |part| > 1;
    forall i | 0 <= i <= |text| ensures !(part <= text[i..]) {
      FoundAt(text, part, i);
    }
  }

  lemma FoundAt(text: string, part: string, i: nat)
    requires i <= |text|
    ensures part <= text[i..] ==> i + |part| <= |text| && forall n :: 0 <= n < |part| ==> text[i + n] == part[n]
  {
  }

  lemma LikeAnyOf(patterns: seq<string>, pattern: string, value: string)
    requires pattern in patterns && Like(pattern, value)
    ensures LikeAny(patterns, value)
  {
  }

  lemma NamesItself(actions: seq<string>, action: string)
    requires action in actions && Literal(Lower(action))
    ensures NamesOne(actions, action)
  {
    LikeLiteral(Lower(action), Lower(action));
  }

  // ---- What CAD ingress may write

  /** A write the two CAD transactions make: to which partition, behind its department. */
  datatype CadWrite =
    | Lock(externalId: string)
    | DispatchRow(dispatchId: string)
    | OutboxRow
    | PendingNotice
    | ReplayMarker(sourceAndToken: string)

  function CadWriteTail(w: CadWrite): string {
    match w
    case Lock(externalId) => "#" + "DISPATCH_IDEMPOTENCY" + "#" + ("CAD#" + externalId)
    case DispatchRow(dispatchId) => "#" + "DISPATCH" + "#" + dispatchId
    case OutboxRow => "#" + "OUTBOX"
    case PendingNotice => "#" + "CAD_UPDATE_PENDING"
    case ReplayMarker(sourceAndToken) => "#" + "CAD_REPLAY" + "#" + sourceAndToken
  }

  lemma EndingOwn(deptId: string, word: string)
    requires Literal(word) && Free(word)
    ensures Like(Ending(word), DeptKey(deptId, "#" + word))
  {
    EndingKey(deptId, "", word, word);
    assert "" + ("#" + word) == "#" + word;
  }

  lemma CadWriteLike(deptId: string, w: CadWrite)
    ensures LikeAny(if w.ReplayMarker? then CAD_REPLAY_KEYS else CAD_WRITE_KEYS, DeptKey(deptId, CadWriteTail(w)))
  {
    var key := DeptKey(deptId, CadWriteTail(w));
    match w
    case Lock(externalId) =>
      WithinKey(deptId, "DISPATCH_IDEMPOTENCY", "CAD#" + externalId);
      LikeAnyOf(CAD_WRITE_KEYS, CAD_WRITE_KEYS[0], key);
    case DispatchRow(dispatchId) =>
      WithinKey(deptId, "DISPATCH", dispatchId);
      LikeAnyOf(CAD_WRITE_KEYS, CAD_WRITE_KEYS[1], key);
    case OutboxRow =>
      EndingOwn(deptId, "OUTBOX");
      LikeAnyOf(CAD_WRITE_KEYS, CAD_WRITE_KEYS[2], key);
    case PendingNotice =>
      EndingOwn(deptId, "CAD_UPDATE_PENDING");
      LikeAnyOf(CAD_WRITE_KEYS, CAD_WRITE_KEYS[3], key);
    case ReplayMarker(sourceAndToken) =>
      WithinKey(deptId, "CAD_REPLAY", sourceAndToken);
      LikeAnyOf(CAD_REPLAY_KEYS, CAD_REPLAY_KEYS[0], key);
  }

  lemma CadActions()
    ensures Literal(Lower(GET_ITEM)) && Literal(Lower(PUT_ITEM))
    ensures Literal(Lower(UPDATE_ITEM)) && Literal(Lower(CONDITION_CHECK_ITEM))
  {
  }

  /** Every item of both CAD transactions is authorized: each put, and the update of the dispatch. */
  lemma CadTransactionIsAuthorized(tableArn: string, deptId: string, w: CadWrite)
    requires Literal(tableArn)
    ensures Authorized(CadIngressTableStatements(tableArn), OnItem(PUT_ITEM, tableArn, DeptKey(deptId, CadWriteTail(w))))
    ensures !w.ReplayMarker? ==>
      Authorized(CadIngressTableStatements(tableArn), OnItem(UPDATE_ITEM, tableArn, DeptKey(deptId, CadWriteTail(w))))
  {
    var key := DeptKey(deptId, CadWriteTail(w));
    CadWriteLike(deptId, w);
    CadActions();
    NamesItself([GET_ITEM, PUT_ITEM], PUT_ITEM);
    NamesItself([PUT_ITEM, UPDATE_ITEM, CONDITION_CHECK_ITEM], PUT_ITEM);
    NamesItself([PUT_ITEM, UPDATE_ITEM, CONDITION_CHECK_ITEM], UPDATE_ITEM);
    CadIngressAdmits(tableArn, PUT_ITEM, key);
    CadIngressAdmits(tableArn, UPDATE_ITEM, key);
  }

  function SourceCopyKey(deptId: string): string {
    DeptKey(deptId, "#" + "CAD_INGRESS")
  }

  lemma NotEndingKey(deptId: string, last: string, word: string)
    requires Literal(word) && Free(word) && Free(last) && last != word
    ensures !Like(Ending(word), DeptKey(deptId, "#" + last))
  {
    EndingKey(deptId, "", last, word);
    assert "" + ("#" + last) == "#" + last;
  }

  lemma LikeNone(patterns: seq<string>, value: string)
    requires forall i :: 0 <= i < |patterns| ==> !Like(patterns[i], value)
    ensures !LikeAny(patterns, value)
  {
  }

  /** The source copy's key is none of the keys that may be written. */
  lemma SourceCopyIsNotWritable(deptId: string)
    requires Free(deptId)
    ensures !LikeAny(CAD_WRITE_KEYS, SourceCopyKey(deptId)) && !LikeAny(CAD_REPLAY_KEYS, SourceCopyKey(deptId))
    ensures !LikeAny(CAD_READ_KEYS, SourceCopyKey(deptId)) && LikeAny(CAD_SOURCE_COPY_KEYS, SourceCopyKey(deptId))
  {
    NotWithinKey(deptId, "CAD_INGRESS", "CAD_REPLAY");
    NotWithinKey(deptId, "CAD_INGRESS", "DISPATCH_IDEMPOTENCY");
    NotWithinKey(deptId, "CAD_INGRESS", "DISPATCH");
    NotEndingKey(deptId, "CAD_INGRESS", "OUTBOX");
    NotEndingKey(deptId, "CAD_INGRESS", "CAD_UPDATE_PENDING");
    EndingOwn(deptId, "CAD_INGRESS");
    LikeNone(CAD_WRITE_KEYS, SourceCopyKey(deptId));
    LikeNone(CAD_REPLAY_KEYS, SourceCopyKey(deptId));
    LikeNone(CAD_READ_KEYS, SourceCopyKey(deptId));
    LikeAnyOf(CAD_SOURCE_COPY_KEYS, CAD_SOURCE_COPY_KEYS[0], SourceCopyKey(deptId));
  }

  /** On the department's source copy the only action admitted is the read, whatever the action. */
  lemma SourceCopyIsReadOnly(tableArn: string, deptId: string, action: string)
    requires Literal(tableArn) && Free(deptId)
    ensures Authorized(CadIngressTableStatements(tableArn), OnItem(action, tableArn, SourceCopyKey(deptId)))
       <==> NamesOne([GET_ITEM], action)
  {
    SourceCopyIsNotWritable(deptId);
    CadIngressAdmits(tableArn, action, SourceCopyKey(deptId));
  }

  // ---- The copy consumers

  datatype CopyConsumer = PrePlanCopy | HydrantCopy

  function CopyWord(c: CopyConsumer): string {
    if c.PrePlanCopy? then "PREPLAN" else "HYDRANT"
  }

  function ConsumerName(c: CopyConsumer): string {
    if c.PrePlanCopy? then "preplan-copy-consumer" else "hydrant-copy-consumer"
  }

  function LeadingKeys(c: CopyConsumer): seq<string> {
    [Ending(CopyWord(c)), Within("DEDUP#" + ConsumerName(c))]
  }

  function CopyStatement(c: CopyConsumer, tableArn: string): Statement {
    KeyedStatement("AlertingCopyWrite", [PUT_ITEM, UPDATE_ITEM], tableArn, LeadingKeys(c))
  }

  /** The partition of a consumer's copies, and that of its marker for one event. */
  function CopyKey(c: CopyConsumer, deptId: string): string {
    DeptKey(deptId, "#" + CopyWord(c))
  }

  function MarkerKey(c: CopyConsumer, deptId: string, id: string): string {
    DeptKey(deptId, "#" + ("DEDUP#" + ConsumerName(c)) + "#" + id)
  }

  predicate MayWrite(c: CopyConsumer, tableArn: string, key: string) {
    Authorized([CopyStatement(c, tableArn)], OnItem(PUT_ITEM, tableArn, key))
    && Authorized([CopyStatement(c, tableArn)], OnItem(UPDATE_ITEM, tableArn, key))
  }

  lemma CopyAdmits(c: CopyConsumer, tableArn: string, key: string)
    requires Literal(tableArn)
    ensures MayWrite(c, tableArn, key) <==> Like(LeadingKeys(c)[0], key) || Like(LeadingKeys(c)[1], key)
  {
    var s := CopyStatement(c, tableArn);
    CadActions();
    NamesItself([PUT_ITEM, UPDATE_ITEM], PUT_ITEM);
    NamesItself([PUT_ITEM, UPDATE_ITEM], UPDATE_ITEM);
    KeyedApplies("AlertingCopyWrite", [PUT_ITEM, UPDATE_ITEM], tableArn, LeadingKeys(c), PUT_ITEM, key);
    KeyedApplies("AlertingCopyWrite", [PUT_ITEM, UPDATE_ITEM], tableArn, LeadingKeys(c), UPDATE_ITEM, key);
    assert s in [s];
    assert LeadingKeys(c)[0] in LeadingKeys(c) && LeadingKeys(c)[1] in LeadingKeys(c);
  }

  lemma WordsAreLiteral(c: CopyConsumer)
    ensures Literal(CopyWord(c)) && Free(CopyWord(c))
  {
  }

  lemma NamesAreLiteral(c: CopyConsumer)
    ensures Literal(ConsumerName(c))
  {
  }

  lemma NamesAreFree(c: CopyConsumer)
    ensures Free(ConsumerName(c)) && Literal("DEDUP#")
  {
  }

  lemma CopyWords(c: CopyConsumer)
    ensures Literal(CopyWord(c)) && Free(CopyWord(c))
    ensures Literal("DEDUP#" + ConsumerName(c)) && Free(ConsumerName(c))
  {
    WordsAreLiteral(c);
    NamesAreLiteral(c);
    NamesAreFree(c);
  }

  /** A consumer may write every key its own transaction needs. */
  lemma CopyWriterReachesItsKeys(c: CopyConsumer, tableArn: string, deptId: string, id: string)
    requires Literal(tableArn)
    ensures MayWrite(c, tableArn, CopyKey(c, deptId)) && MayWrite(c, tableArn, MarkerKey(c, deptId, id))
  {
    CopyWords(c);
    EndingOwn(deptId, CopyWord(c));
    WithinKey(deptId, "DEDUP#" + ConsumerName(c), id);
    CopyAdmits(c, tableArn, CopyKey(c, deptId));
    CopyAdmits(c, tableArn, MarkerKey(c, deptId, id));
  }

  function Other(c: CopyConsumer): CopyConsumer {
    if c.PrePlanCopy? then HydrantCopy else PrePlanCopy
  }

  lemma ConsumerInitials(c: CopyConsumer)
    ensures |ConsumerName(c)| == 21 && |ConsumerName(Other(c))| == 21
    ensures ConsumerName(c)[0] != 'D' && ConsumerName(c)[0] != ConsumerName(Other(c))[0]
  {
  }

  /** The delimiters of a marker's key behind `DEPT#`, and what follows each of them. */
  lemma MarkerLayout(deptId: string, name: string, id: string, i: nat)
    requires Free(deptId) && Free(id) && Free(name) && |name| == 21
    requires i < |deptId| + 29 + |id|
    ensures var text := deptId + ("#" + ("DEDUP#" + name) + "#" + id); var d := |deptId|;
      && |text| == d + 29 + |id|
      && (text[i] == '#' ==> i == d || i == d + 6 || i == d + 28)
      && text[d + 7] == name[0]
      && (d + 6 < i < d + 28 ==> text[i] == name[i - d - 7])
  {
    FreeAt(deptId);
    FreeAt(id);
    FreeAt(name);
  }

  /** Neither consumer's marker holds the other's delimited name. */
  lemma MarkersApart(c: CopyConsumer, deptId: string, id: string)
    requires Free(deptId) && Free(id)
    ensures !Like(Within("DEDUP#" + ConsumerName(Other(c))), MarkerKey(c, deptId, id))
  {
    var tail := "#" + ("DEDUP#" + ConsumerName(c)) + "#" + id;
    CopyWords(Other(c));
    KeyWithin(deptId, tail, "DEDUP#" + ConsumerName(Other(c)));
    forall i | 0 <= i <= |deptId + tail|
      ensures !("#" + ("DEDUP#" + ConsumerName(Other(c))) + "#" <= (deptId + tail)[i..])
    {
      NotFoundAt(c, deptId, id, i);
    }
  }

  lemma NotFoundAt(c: CopyConsumer, deptId: string, id: string, i: nat)
    requires Free(deptId) && Free(id)
    requires i <= |deptId + ("#" + ("DEDUP#" + ConsumerName(c)) + "#" + id)|
    ensures !("#" + ("DEDUP#" + ConsumerName(Other(c))) + "#"
              <= (deptId + ("#" + ("DEDUP#" + ConsumerName(c)) + "#" + id))[i..])
  {
    var name, other := ConsumerName(c), ConsumerName(Other(c));
    var text, part := deptId + ("#" + ("DEDUP#" + name) + "#" + id), "#" + ("DEDUP#" + other) + "#";
    CopyWords(c);
    ConsumerInitials(c);
    FoundAt(text, part, i);
    assert |part| == 29 && part[0] == '#' && part[1] == 'D' && part[6] == '#' && part[7] == other[0];
    if i + 29 <= |text| {
      MarkerLayout(deptId, name, id, i);
      MarkerLayout(deptId, name, id, i + 1);
      MarkerLayout(deptId, name, id, i + 6);
    }
  }

  /** Neither consumer may write the other's keys, of any department and event, but for one: a marker
      whose event id is the very word the other consumer's partition ends in. */
  lemma CopyWritersAreApart(c: CopyConsumer, tableArn: string, deptId: string, id: string)
    requires Literal(tableArn) && Free(deptId) && Free(id)
    ensures !MayWrite(Other(c), tableArn, CopyKey(c, deptId))
    ensures MayWrite(Other(c), tableArn, MarkerKey(c, deptId, id)) <==> id == CopyWord(Other(c))
  {
    CopyWords(c);
    CopyWords(Other(c));
    NotEndingKey(deptId, CopyWord(c), CopyWord(Other(c)));
    NotWithinKey(deptId, CopyWord(c), "DEDUP#" + ConsumerName(Other(c)));
    CopyAdmits(Other(c), tableArn, CopyKey(c, deptId));
    var before := "#" + ("DEDUP#" + ConsumerName(c));
    EndingKey(deptId, before, id, CopyWord(Other(c)));
    assert before + ("#" + id) == "#" + ("DEDUP#" + ConsumerName(c)) + "#" + id;
    MarkersApart(c, deptId, id);
    CopyAdmits(Other(c), tableArn, MarkerKey(c, deptId, id));
  }

  /** What stands behind `DEPT#` ends in the consumer's word. */
  predicate IsCopyOf(c: CopyConsumer, rest: string) {
    EndsWith(rest, "#" + CopyWord(c))
  }

  /** What stands behind `DEPT#` holds the consumer's delimited marker name. */
  predicate IsMarkerOf(c: CopyConsumer, rest: string) {
    Contains(rest, "#" + ("DEDUP#" + ConsumerName(c)) + "#")
  }

  /** A consumer may write a key, whatever it is, exactly when it ends in its word or holds its name. */
  lemma MayWriteExactly(c: CopyConsumer, tableArn: string, key: string)
    requires Literal(tableArn)
    ensures MayWrite(c, tableArn, key) <==> "DEPT#" <= key && (IsCopyOf(c, key[5..]) || IsMarkerOf(c, key[5..]))
  {
    CopyAdmits(c, tableArn, key);
    CopyWords(c);
    LikeAround("DEPT#", "#" + CopyWord(c), key);
    LikeInside("DEPT#", "#" + ("DEDUP#" + ConsumerName(c)) + "#", key);
  }

  lemma CopyAdmitsActions(c: CopyConsumer, tableArn: string, action: string, key: string)
    requires Literal(tableArn)
    ensures Authorized([CopyStatement(c, tableArn)], OnItem(action, tableArn, key)) <==>
      && (Lower(action) == Lower(PUT_ITEM) || Lower(action) == Lower(UPDATE_ITEM))
      && (Like(LeadingKeys(c)[0], key) || Like(LeadingKeys(c)[1], key))
  {
    var s := CopyStatement(c, tableArn);
    CadActions();
    NamesOneOf([PUT_ITEM, UPDATE_ITEM], action);
    assert PUT_ITEM in [PUT_ITEM, UPDATE_ITEM] && UPDATE_ITEM in [PUT_ITEM, UPDATE_ITEM];
    KeyedApplies("AlertingCopyWrite", [PUT_ITEM, UPDATE_ITEM], tableArn, LeadingKeys(c), action, key);
    LikeTwo(LeadingKeys(c)[0], LeadingKeys(c)[1], key);
    assert s in [s];
  }

  /** All that each consumer may do with any key: put and update what ends in its own word, or holds its
      own delimited name. */
  lemma CopyWritersExactly(tableArn: string, action: string, key: string)
    requires Literal(tableArn)
    ensures Authorized([CopyStatement(PrePlanCopy, tableArn)], OnItem(action, tableArn, key)) <==>
      && (Lower(action) == Lower("dynamodb:PutItem") || Lower(action) == Lower("dynamodb:UpdateItem"))
      && "DEPT#" <= key
      && (EndsWith(key[5..], "#PREPLAN") || Contains(key[5..], "#DEDUP#preplan-copy-consumer#"))
    ensures Authorized([CopyStatement(HydrantCopy, tableArn)], OnItem(action, tableArn, key)) <==>
      && (Lower(action) == Lower("dynamodb:PutItem") || Lower(action) == Lower("dynamodb:UpdateItem"))
      && "DEPT#" <= key
      && (EndsWith(key[5..], "#HYDRANT") || Contains(key[5..], "#DEDUP#hydrant-copy-consumer#"))
  {
    CopyWriterReads(PrePlanCopy, tableArn, action, key);
    CopyWriterReads(HydrantCopy, tableArn, action, key);
    CopyPartsRead();
  }

  lemma CopyWriterReads(c: CopyConsumer, tableArn: string, action: string, key: string)
    requires Literal(tableArn)
    ensures Authorized([CopyStatement(c, tableArn)], OnItem(action, tableArn, key)) <==>
      && (Lower(action) == Lower(PUT_ITEM) || Lower(action) == Lower(UPDATE_ITEM))
      && "DEPT#" <= key && (IsCopyOf(c, key[5..]) || IsMarkerOf(c, key[5..]))
  {
    CopyAdmitsActions(c, tableArn, action, key);
    CopyWords(c);
    LikeAround("DEPT#", "#" + CopyWord(c), key);
    LikeInside("DEPT#", "#" + ("DEDUP#" + ConsumerName(c)) + "#", key);
  }

  lemma CopyPartsRead()
    ensures "#" + CopyWord(PrePlanCopy) == "#PREPLAN" && "#" + CopyWord(HydrantCopy) == "#HYDRANT"
    ensures "#" + ("DEDUP#" + ConsumerName(PrePlanCopy)) + "#" == "#DEDUP#preplan-copy-consumer#"
    ensures "#" + ("DEDUP#" + ConsumerName(HydrantCopy)) + "#" == "#DEDUP#hydrant-copy-consumer#"
  {
  }

  lemma WordsExclude(rest: string)
    ensures !(IsCopyOf(PrePlanCopy, rest) && IsCopyOf(HydrantCopy, rest))
  {
    var p, h := "#" + CopyWord(PrePlanCopy), "#" + CopyWord(HydrantCopy);
    assert |p| == |h| == 8 && p[1] != h[1];
  }

  /** The keys both consumers may write, among all strings: those that hold the delimited name of one
      of them, and end in the other's word or hold the other's name as well. */
  lemma WritableByBoth(tableArn: string, key: string)
    requires Literal(tableArn)
    ensures MayWrite(PrePlanCopy, tableArn, key) && MayWrite(HydrantCopy, tableArn, key) <==>
      && "DEPT#" <= key
      && exists c :: IsMarkerOf(c, key[5..]) && (IsCopyOf(Other(c), key[5..]) || IsMarkerOf(Other(c), key[5..]))
  {
    MayWriteExactly(PrePlanCopy, tableArn, key);
    MayWriteExactly(HydrantCopy, tableArn, key);
    if "DEPT#" <= key {
      var rest := key[5..];
      WordsExclude(rest);
      assert Other(PrePlanCopy) == HydrantCopy && Other(HydrantCopy) == PrePlanCopy;
      if c :| IsMarkerOf(c, rest) && (IsCopyOf(Other(c), rest) || IsMarkerOf(Other(c), rest)) {
        assert c == PrePlanCopy || c == HydrantCopy;
      }
    }
  }
}
