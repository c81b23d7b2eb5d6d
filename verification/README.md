# Verification of the paging platform

These modules model the parts of the platform that have to be right when something else goes wrong,
and prove what they promise over every input, every run and every interleaving. To check
the proofs, run `dafny verify dfyconfig.toml`.

- **Paging.** `PagingQueue` is one message group of a channel's FIFO queue as a step system:
  receive, dead-letter after three receives, partial-batch settle, visibility. `HeadOfLine` bounds how
  long one page can be held up by the pages ahead of it, and shows the bound is met.
  `PagingTransport` puts the topic, its channel filter, its deduplication window and all groups
  together. `SendGuard` is the claim a worker takes before it calls the vendor.
- **Sessions.** `LoginConvergence` is the member-status consumer, await by await, with any number of
  instances interleaving. `PreTokenGeneration` is the token trigger, `RevocationCheck` the
  authorizer's cache, and `Sessions` runs both over time.
- **Streams and the outbox.** `StreamMapping` is a stream mapping with bounded retries, bisection and
  partial failures, for any function behind it. `OutboxDrain` is the drain handler, and the outbox over
  whole runs of the mapping.
- **CAD messages.** `CadIngress` admits messages (identity lock, replay markers), `CadUpdates` applies
  later ones (older, duplicate, racing), `CadNotices` tells the crew.
- **Policies.** `CedarText` prints and parses role-gated Cedar statements, `CedarPolicies` evaluates the
  deployed set. `Glob` is IAM's wildcard matching, `Iam` policy evaluation with a boundary,
  `TableGrants` the statements that confine roles by leading key, `ApparatusRoute` a role's policy built
  from any route spec and what it leaves of the audit trail.
- **The API.** `RouteRegistry` is the HTTP API's one-shot route registry, `Throttle` its token buckets,
  `SendPolicy` evaluates the policies of the queues behind an event rule, `RuleDelivery` follows every
  copy of an event from the rule to its end and counts it in the metrics and alarms, and `RuleTiming`
  bounds how long that takes.
- `MemberStatus` and `Delimited` hold what several modules share: statuses, and keys joined with `#`.

## What the code promises and what it does

Eight statements in the code's own comments or design turn out not to hold as stated. The model
follows the code; lemmas give the runs that break the statement, and one says exactly when it holds.

- Pages of one group end in publish order: only while the worker takes one page at a time
  (`PagingQueue.EndsInOrderIffOneAtATime`). The workers take up to ten. What holds for any batch
  size is that pages first reach a worker in publish order (`PagingQueue.PagesStartInOrder`).
- The oldest-message alarm sits above the longest hold-up: for fewer than two full batches of failing
  pages (`HeadOfLine.StaysBelowTheAgeAlarm`).
- A message whose worker died qualifies for the takeover when it comes again: only if the worker had
  claimed within ten of its fifteen seconds; after a later claim the redelivery is skipped as a
  duplicate and acknowledged, and nobody is paged. The client adds a second way to lose a page, at every
  timing: a claim or takeover that took effect but whose answer was lost is sent again, fails its own
  condition, and the worker takes the page for a duplicate (`SendGuard.NeverDroppedIff`,
  `SendGuard.DroppedOnItsOwnClaim`, `SendGuard.NoStaleAgeServesBoth`).
- A lost SENT costs at most one duplicate: every lost mark can cost one, and so can every post that the
  vendor took and whose answer was lost (`SendGuard.PagedOncePlusLost`). A FAILED that the client sends
  again, after another worker took the page over, costs one more with nothing lost, and breaks the rule of
  one sender at a time (`SendGuard.LostMarksBoundPagesIff`, `SendGuard.OneSenderIff`).
- A revocation takes effect within about 30 seconds: within 30 seconds, one marker read, and what an
  ordinary read may lag behind the newest marker, because an answer is cached when the read finishes and
  only one route forces a consistent read (`Sessions.EnforcementBoundIsExact`,
  `Sessions.ForcedReadsEnforceAtOnce`). The same lag of the trigger's status read can issue a token
  after the member became inactive: the hour counts from there (`Sessions.HourBoundIsExact`), and a
  marker stamped with the second of the change does not cover such a token
  (`Sessions.LateSignInOutlivesTheMarker`).
- Bisection splits a poison record away from the healthy ones: when the function throws, or when the
  mapping bisects a batch reported at its first record; if it retries that batch whole, everything
  behind the poison record goes with it (`StreamMapping.PoisonIsolationIsExact`). The fan-out and the
  drain report and do not throw.
- An outbox row is published again only when its `sentAt` update failed: failed updates are swallowed
  and cause no retry. A row is published again when an earlier row of its batch failed, when the worker
  died once it had published, when a request arrived and got no answer, or when the client sent a request
  again that had arrived; `OutboxDrain.PublishedExactly` counts them by cause. The failed updates bound the
  duplicates if and only if batches hold one row and none of the other three happens
  (`OutboxDrain.FailedMarksBoundDuplicatesIffSingle`).
- The latest CAD message decides the dispatch: for the fields it carries, and otherwise only when the
  messages agree (`CadUpdates.OrderIndependenceIsExact`).

Two more are exact conditions rather than breaches: the pre-plan and hydrant consumers' keys are
apart but for a marker whose id is the word `HYDRANT` or `PREPLAN` (`TableGrants.CopyWritersAreApart`; for
all strings, `TableGrants.WritableByBoth`), and
the audit deny is about requests on audit rows alone (`ApparatusRoute.WritesAuthorized`,
`ApparatusRoute.MixedBatchGetsPast`).

## Model

| member | source | states |
|---|---|---|
| `PagingQueue.PagesAreConserved` | infrastructure/components/alerting/messaging-alerting.ts:86-147 | In every run every page published is in exactly one of waiting, in flight, acknowledged, dead-lettered, and is dead-lettered only after exactly three receives |
| `PagingQueue.PagesStartInOrder` | infrastructure/components/alerting/messaging-alerting.ts:48-66 | For every batch size the pages no worker has seen are the latest published ones, in order |
| `PagingQueue.RunOneAtATime` | infrastructure/components/alerting/messaging-alerting.ts:48-66 | With one page in flight at a time, ended, in flight and waiting pages together read the publish order |
| `PagingQueue.Overtaking` | infrastructure/components/alerting/channel-workers.ts:231-240 | With two pages received together, the later one can end first |
| `PagingQueue.EndsInOrderIffOneAtATime` | infrastructure/components/alerting/channel-workers.ts:231-240 | Pages leave in publish order in all runs if and only if at most one page is taken at a time |
| `HeadOfLine.ThreeRounds` | infrastructure/components/alerting/messaging-alerting.ts:136-147 | Any three receives, whatever is acknowledged, dispose of a full batch of the pages ahead |
| `HeadOfLine.HeadOfLineBound` | infrastructure/components/alerting/messaging-alerting.ts:48-71 | With a receive at most a visibility timeout after the one before, a page with k pages ahead is received within 3 * (k / batch) of them, for every k, batch, timeout, worker and later traffic |
| `HeadOfLine.HeadOfLineBoundIsMet` | infrastructure/components/alerting/messaging-alerting.ts:48-71 | When everything ahead always fails it is received at that receive and at no earlier one |
| `HeadOfLine.ReachedWithinExactly` | infrastructure/components/alerting/messaging-alerting.ts:48-71 | A limit in seconds holds for all prompt histories if and only if it exceeds the bound |
| `HeadOfLine.StaysBelowTheAgeAlarm` | infrastructure/components/alerting/alarms.ts:448-460 | At the defaults the hold-up stays below the 120 s alarm if and only if fewer than two full batches are ahead; 90 s for one page at a time |
| `PagingTransport.DedupIdTellsPagesApart` | backend/src/services/alerting-service/fanout/idempotencyKey.ts:17-30 | Pages with `#`-free parts share a deduplication id only when they are the same page |
| `PagingTransport.EveryPageIsAccountedFor` | infrastructure/components/alerting/messaging-alerting.ts:73-190 | In every run each accepted page is in exactly one of filtered out, subscription dead-letter queue, or the group of its own channel and dispatch, and in no other group; it is filtered out if and only if its channel is none of push, sms and voice |
| `PagingTransport.OnlyItselfSuppressesAPage` | infrastructure/components/alerting/messaging-alerting.ts:73-84 | The topic suppresses a page if and only if the same page was accepted less than 300 s ago |
| `SendGuard.RetakeMeetsNoHolder` | backend/src/services/alerting-service/channels/deliverChannelMessage.ts:602-667 | A takeover whose condition holds meets no worker that still holds the guard |
| `SendGuard.OneSenderIff` | backend/src/services/alerting-service/channels/deliverChannelMessage.ts:39-56 | In every run of interleaved, dying and doubled workers at most one is between claim and last write, if and only if a claim goes stale no sooner than its worker is ended and no FAILED that took effect is written again |
| `SendGuard.TwoSenders` | backend/src/services/alerting-service/channels/deliverChannelMessage.ts:602-667 | With a shorter stale age, a run with two senders at once |
| `SendGuard.PagedOncePlusLost` | backend/src/services/alerting-service/channels/deliverChannelMessage.ts:143-232 | While no FAILED is written again, the vendor takes a page once, and once more exactly for each post whose answer was lost and each acceptance whose SENT was, by a dead worker or a failed write |
| `SendGuard.PostedAgain` | backend/packages/push-transport/src/pushResult.ts:72-83 | One call that posts again after a lost connection: two acceptances, SENT written, no mark lost |
| `SendGuard.PagedAgainAfterSent` | backend/src/services/alerting-service/channels/deliverChannelMessage.ts:673-704 | A FAILED written again over another worker's SENT: two acceptances, no mark or answer lost |
| `SendGuard.LostMarksBoundPagesIff` | backend/src/services/alerting-service/channels/deliverChannelMessage.ts:706-712 | The lost marks alone bound the acceptances if and only if no answer of the vendor is lost and no FAILED is written again |
| `SendGuard.DeliveredIsNotSentAgain` | backend/src/services/alerting-service/channels/deliverChannelMessage.ts:602-667 | Once the page is known to be delivered no worker sets out to send it again, in any run, with whatever writes are repeated |
| `SendGuard.DroppedPage` | backend/src/services/alerting-service/channels/deliverChannelMessage.ts:602-631 | A run that acknowledges a page no vendor accepted, with no write repeated |
| `SendGuard.DroppedOnItsOwnClaim` | backend/src/services/alerting-service/awsClientConfig.ts:1-17 | At every timing, a run that acknowledges an unaccepted page because its claim took effect, was sent again and was refused |
| `SendGuard.DroppedOnItsOwnTakeover` | backend/src/services/alerting-service/channels/deliverChannelMessage.ts:632-667 | The same for the takeover of a failed claim |
| `SendGuard.NeverDroppedIff` | backend/src/services/alerting-service/channels/deliverChannelMessage.ts:49-56 | No message is acknowledged unaccepted, in any run of it, if and only if every claim is stale by its redelivery and no claim that took effect is written again |
| `SendGuard.DeployedTimings` | infrastructure/components/alerting/messaging-alerting.ts:63-71 | At 15, 20 and 30 seconds: one sender at a time if and only if no FAILED is written again, and nothing dropped if and only if no claim is and claims are stamped within ten seconds |
| `SendGuard.NoStaleAgeServesBoth` | infrastructure/components/alerting/messaging-alerting.ts:63-71 | With the visibility at twice the timeout no stale age gives both |
| `LoginConvergence.StepKeepsInv` | backend/src/services/platform-service/session-revocation/memberStatusRevocationHandler.ts:173-222 | Every await of every instance keeps: the login agrees with the row, or a repair is on its way |
| `LoginConvergence.LoginAgreesOrEventOutstanding` | infrastructure/components/identity/session-revocation.ts:144-198 | In every run with failed, doubled and reordered events and interleaved instances: with no event outstanding the login of a member on LOA or RETIRED is disabled, and that of one ACTIVE or PROBATIONARY enabled |
| `LoginConvergence.ApplyDoes` | backend/src/services/platform-service/session-revocation/memberStatusRevocationHandler.ts:160-205 | One instance disables on LOA and RETIRED, enables on ACTIVE and PROBATIONARY, and makes no call on any other status |
| `LoginConvergence.RereadDoes` | backend/src/services/platform-service/session-revocation/memberStatusRevocationHandler.ts:190-222 | It is done when the row still asks for what it did, else starts over, and gives the message back after three rounds |
| `LoginConvergence.CalmRunsConverge` | backend/src/services/platform-service/session-revocation/memberStatusRevocationHandler.ts:190-222 | Once nothing changes or fails any more the remaining work is bounded, and where it stops the login is as the row's status asks, status by status |
| `LoginConvergence.QuiescentRosterAgrees` | infrastructure/components/personnel/members.ts:111-124 | When no event is outstanding anywhere, every member's login is as the row's status asks, status by status |
| `PreTokenGeneration.TokenEvent.Handle` | infrastructure/components/identity/pre-token-generation-handler.js:58-101 | Refused if and only if a row is named, its lookup succeeds and its status is LOA or RETIRED; otherwise issued, with the department claim when there is one |
| `RevocationCheck.RevocationChecker.Lookup` | backend/src/services/platform-service/authorizer/revocationCheck.ts:100-110 | The cache answers exactly while its entry is unexpired and no fresh read is asked for |
| `RevocationCheck.RevocationChecker.ReadSucceeded` | backend/src/services/platform-service/authorizer/revocationCheck.ts:110-117 | The answer, the entry cached for 30 s from now, and a full cache emptied |
| `RevocationCheck.RevocationChecker.ReadFailed` | backend/src/services/platform-service/authorizer/revocationCheck.ts:117-129 | The last known answer or none, kept for 5 s, other entries untouched |
| `Sessions.AdmittedExactly` | backend/src/services/platform-service/authorizer/handler.ts:141-190 | Which requests get through: with a marker read or known, exactly those it does not cover; with none known, exactly those of routes that fail open |
| `Sessions.InactiveMemberIsOutWithinTheHour` | infrastructure/components/identity/pre-token-generation-handler.js:33-101 | No request is taken up later than 3600 s, the lag of the trigger's status read and the trigger's own time after the member became inactive, on either authorizer, with the revocation store readable or not |
| `Sessions.NothingIsAdmittedAfterTheHour` | infrastructure/components/api/http-api.ts:225-234 | And none is let through once the marker reads then under way are over |
| `Sessions.LateSignInRun` | infrastructure/components/identity/pre-token-generation-handler.js:44-56 | A run in which the trigger still reads ACTIVE after the change, and the member gets through up to that very end, with the store answering |
| `Sessions.HourBoundIsExact` | infrastructure/components/identity/pre-token-generation-handler.js:44-56 | A bound on how long an inactive member gets through holds for all runs if and only if it covers the hour, the lag, the trigger's time and one marker read |
| `Sessions.MarkerIsEnforced` | backend/src/services/platform-service/authorizer/revocationCheck.ts:92-129 | With the store answering, no covered token is let through 30 s, one read and the lag of an ordinary read after a marker stands |
| `Sessions.ForcedReadsEnforceAtOnce` | backend/src/services/platform-service/authorizer/revocationStore.ts:49-67 | On the route that forces its reads, one read after |
| `Sessions.InactiveMemberIsOutOnceMarked` | infrastructure/index.ts:128-134 | No token of an inactive member is let through once a marker has stood that long, if it covers the last second in which a lagging sign-in could still be issued a token |
| `Sessions.LateSignInOutlivesTheMarker` | infrastructure/components/identity/pre-token-generation-handler.js:44-56 | A marker of the second of the change does not do: a run in which a later token gets through for its hour |
| `Sessions.LateAnswerRun` | backend/src/services/platform-service/authorizer/revocationCheck.ts:92-129 | A run in which an ordinary read started within the lag is cached and admits a covered token one millisecond before the bound |
| `Sessions.EnforcementBoundIsExact` | backend/src/services/platform-service/authorizer/revocationCheck.ts:92-129 | A bound on enforcement holds for all runs if and only if it covers 30 s, a whole read and the lag |
| `Delimited.SplitJoin` | backend/packages/dept-scope/src/index.ts:9-38 | Splitting undoes joining, for parts without the delimiter |
| `Delimited.DeptScopedPkInjective` | backend/packages/dept-scope/src/index.ts:9-38 | Two keys that the builder accepts are equal if and only if department and parts are |
| `StreamMapping.StepKeepsRecords` | infrastructure/components/alerting/fan-out.ts:177-211 | Every outcome, bisection, retry and expiry keeps every record, in shard order |
| `StreamMapping.StepLowersWeight` | infrastructure/components/alerting/fan-out.ts:177-211 | Every step lowers a measure of records left, batch sizes and retries left |
| `StreamMapping.EveryRecordEnds` | infrastructure/components/alerting/fan-out.ts:177-211 | For any function the mapping ends, and every record has ended handled or on the on-failure queue, none skipped, doubled or reordered |
| `StreamMapping.BisectingFailsOnlyPoison` | infrastructure/components/alerting/fan-out.ts:186-188 | With bisection exactly the poison records end on the on-failure queue |
| `StreamMapping.RetriedWhole` | backend/src/services/alerting-service/fanout/handler.ts:637-664 | Reported and retried whole, the batch from the first poison record on ends there together |
| `StreamMapping.PoisonIsolationIsExact` | infrastructure/components/alerting/fan-out.ts:186-193 | Only poison records end there if and only if the function throws, or the mapping bisects, or nothing healthy stood behind |
| `OutboxDrain.ParseRows` | backend/packages/outbox/src/drainHandler.ts:147-171 | The rows the drain publishes: every complete row of an allowed type, in order and as often as it came, and no other |
| `OutboxDrain.PublishChunk` | backend/packages/outbox/src/drainHandler.ts:217-274 | One request, whatever copies of it the client sent: what the bus answered it took, what was marked, what failed to be, the first row refused |
| `OutboxDrain.Drain` | backend/packages/outbox/src/drainHandler.ts:296-328 | One invocation: the requests in order, up to the first that leaves a row unpublished |
| `OutboxDrain.DrainConfirms` | backend/packages/outbox/src/drainHandler.ts:217-328 | The row reported is the first the bus did not take; all before it were published; a row is marked only if it was published |
| `OutboxDrain.StepKeepsInv` | infrastructure/components/messaging/outbox-publisher.ts:105-133 | Every step keeps: publications are one for each row the mapping got past and those of the four causes, whatever fails, dies or is repeated |
| `OutboxDrain.SentWasPublished` | infrastructure/components/messaging/outbox-publisher.ts:81-102 | A row that carries sentAt was published, in every reachable state |
| `OutboxDrain.EveryRowIsAccountedFor` | infrastructure/components/alerting/outbox-drain.ts:138-170 | In the end every row is on the on-failure queue, or published, or counted as malformed or rejected; in every state no incomplete or disallowed row was published, and no other counted |
| `OutboxDrain.PublishedExactly` | infrastructure/components/messaging/outbox-publisher.ts:81-102 | A row's publications: one if the mapping got past it, and those by dead invocations, unanswered requests, repeated requests, and requests behind a failed row |
| `OutboxDrain.RepublishedBehindAFailure` | backend/packages/outbox/src/drainHandler.ts:217-274 | Two publications of a row both of whose marks succeeded, with no other cause |
| `OutboxDrain.RepublishedAfterACrash` | backend/packages/outbox/src/drainHandler.ts:217-274 | Two publications of a batch's only row and no failed mark: the worker died after the mark |
| `OutboxDrain.RepublishedUnanswered` | backend/packages/outbox/src/drainHandler.ts:242-255 | The same when the request arrived and got no answer, and no mark was attempted |
| `OutboxDrain.RepublishedByTheClient` | backend/packages/outbox/src/drainHandler.ts:73 | Two publications in one invocation, with the mark in place: the client sent a request again that had arrived |
| `OutboxDrain.FailedMarksBoundDuplicatesIffSingle` | infrastructure/components/messaging/outbox-publisher.ts:105-133 | For every batch size and every choice of what runs may contain, one plus the failed `sentAt` updates bounds a row's publications if and only if batches hold at most one row and the runs contain no crash after publishing, no request that arrived unanswered, and none repeated after it arrived |
| `CadUpdates.RecordedExactly` | backend/src/services/alerting-service/cadIngress/updateRepository.ts:160-300 | A new message is recorded as history exactly when both times are known and its own is earlier, and then changes nothing of the call; else as a change exactly when some field reads differently afterwards |
| `CadUpdates.CommitRecords` | backend/src/services/alerting-service/cadIngress/updateRepository.ts:196-393 | The same for what a write records in any concurrent run |
| `CadUpdates.CommitDecides` | backend/src/services/alerting-service/cadIngress/updateRepository.ts:137-160 | Each attempt to write is a duplicate if the text was seen, accepted if the message is older or nothing was applied since the read, and otherwise starts over, up to three attempts |
| `CadUpdates.LoneInvocationAccepts` | backend/src/services/alerting-service/cadIngress/updateRepository.ts:130-160 | From every reachable state an invocation that nothing comes between accepts a text not seen before |
| `CadUpdates.WrittenAsReceived` | backend/src/services/alerting-service/cadIngress/updateRepository.ts:160-194 | A write whose conditions hold does what receiving the message now would do |
| `CadUpdates.ConcurrentWritesAreSerial` | backend/src/services/alerting-service/cadIngress/updateRepository.ts:160-393 | However invocations interleave, the dispatch is what its accepted messages, one by one, make of it |
| `CadUpdates.LatestWins` | docs/decisions/2026-09-30-cad-dispatch-updates.md:17-31 | Every field the latest message carries ends as it says, for every order of arrival and any redeliveries |
| `CadUpdates.LatestAcceptedWins` | backend/src/services/alerting-service/cadIngress/updateRepository.ts:160-194 | The same over concurrent runs with failing invocations |
| `CadUpdates.OrderIndependenceIsExact` | backend/src/services/alerting-service/cadIngress/updateRepository.ts:83-107 | A field ends the same for all orders if and only if the latest message carries it, or all agree, or it is the type and all parsed messages agree with a parsed latest one |
| `CadIngress.OnePageAWindow` | backend/src/services/alerting-service/dispatches/repository.ts:118-129 | In every run two pages for one identity are at least its window apart |
| `CadIngress.TokensAreUsedOnce` | backend/src/services/alerting-service/dispatches/repository.ts:235-247 | No replay token is used twice within its lifetime, for a page or an update |
| `CadIngress.PagesExactly` | backend/src/services/alerting-service/dispatches/repository.ts:82-270 | Over all runs, told by their history: a message pages, with exactly one new alert and one new dispatch that holds its text, when its identity has no alert or earlier lock that still stands and none of its tokens was used up; while one stands, or a token is still spent, it changes nothing |
| `CadIngress.DuplicatesAreRecorded` | backend/src/services/alerting-service/cadIngress/ingest.ts:300-330 | A message that pages nobody because its identity's last alert still stands updates that alert's dispatch, unless the dispatch has seen its text; its tokens are used up and nothing else changes |
| `CadNotices.SweptIffReceivedBefore` | backend/src/services/alerting-service/cadIngress/updateSweepHandler.ts:25-38 | The sweep's string comparison of padded keys picks exactly the markers received before the cutoff |
| `CadNotices.NoNoticeIsLost` | backend/src/services/alerting-service/cadIngress/updateNotifierHandler.ts:50-76 | In every run each message that changed some field of the call is stamped notified, or its marker is there, or its week is over; a stamped one had its notice sent, unless its dispatch is a test or gone |
| `CadNotices.OnlyChangesAreTold` | backend/src/services/alerting-service/cadIngress/updateRepository.ts:225-438 | No hand-off, retry or sweep in any run brings a message that changed no field of the call to a notifier or the crew |
| `CadNotices.SweepFindsTheRest` | backend/src/services/alerting-service/cadIngress/updateSweepHandler.ts:18-56 | A sweep over pages of ordinary reads hands over only changes received two minutes before it, and by its end every one that still owes its notice, unless its marker was written within the lag of such a read |
| `CadNotices.SweepCompletes` | backend/src/services/alerting-service/cadIngress/updateSweepHandler.ts:25-51 | From any state a sweep that is not interrupted comes to its end with every due marker handed to a notifier |
| `CadNotices.SweepSettles` | backend/src/services/alerting-service/cadIngress/updateNotifierHandler.ts:226-291 | From any state that has owed a notice for two minutes, a sweep and one undisturbed notifier stamp it and clear the marker, with the crew told unless the dispatch is a test or gone |
| `CadNotices.HandOffSettles` | backend/src/services/alerting-service/cadIngress/ingest.ts:332-333 | From any state that owes a notice, its hand-off and one undisturbed notifier do the same |
| `CedarText.PrintedLexes` | infrastructure/components/authz/cedar-policies.ts:611-634 | The printed text is always the token sequence of a permit with an action list and a disjunction of group tests |
| `CedarText.PrintedParses` | infrastructure/components/authz/cedar-policies.ts:675-685 | Parsing it gives back exactly its actions and groups; it is a statement at all if and only if there is a group |
| `CedarText.PrintedIsInjective` | infrastructure/components/authz/cedar-policies.ts:675-685 | Different groups or actions never print the same |
| `CedarPolicies.DecisionIsLookup` | infrastructure/components/authz/cedar-policies.ts:617-777 | Evaluating printed statements is a table lookup, for every pool id, policy list, group set and action |
| `CedarPolicies.DeployedDecisionIsTiers` | infrastructure/test/authz/tier-matrix.test.ts:33-193 | The sixteen deployed statements grant exactly what the hand-written tiers say |
| `CedarPolicies.OtherPoolsMatchNothing` | infrastructure/components/authz/cedar-policies.ts:617-625 | A token of another pool matches nothing, whatever its groups are called |
| `CedarPolicies.DecisionIsMonotone` | infrastructure/components/authz/policy-store.ts:133-321 | More groups never take a permission away |
| `CedarPolicies.ChiefMayDoIt` | infrastructure/components/authz/cedar-policies.ts:58-413 | Whatever some groups may do, CHIEF may do alone |
| `Glob.LikeIsExact` | infrastructure/components/platform/cad-sources.ts:45-49 | The wildcard matcher decides exactly the declarative meaning of patterns, for all strings |
| `Iam.BoundaryIsExact` | infrastructure/components/alerting/iam-boundary.ts:29-62 | For every identity policy a bounded role may do exactly what it allows, except DynamoDB actions on the two tables, their indexes and streams |
| `TableGrants.DeptPartitionIsExact` | infrastructure/components/platform/cad-sources.ts:40-51 | A request of any number of keys is admitted if and only if each is `DEPT#` and a string without `#` |
| `TableGrants.CadIngressExactly` | infrastructure/components/alerting/cad-ingress.ts:97-147 | Everything the four statements admit, for every action and every key |
| `TableGrants.CadTransactionIsAuthorized` | infrastructure/components/alerting/cad-ingress.ts:97-147 | Every item of both CAD transactions is authorized, for all ids |
| `TableGrants.SourceCopyIsReadOnly` | infrastructure/components/alerting/cad-ingress.ts:97-111 | On the source copy only GetItem is admitted, whatever the action |
| `TableGrants.CopyWriterReachesItsKeys` | infrastructure/components/alerting/pre-plan-copies.ts:46-59 | A copy consumer may write every key its transaction needs |
| `TableGrants.CopyWritersExactly` | infrastructure/components/alerting/pre-plan-copies.ts:46-59 | All that each consumer may do, for every action and key: put and update what ends in its own word or holds its own delimited name |
| `TableGrants.CopyWritersAreApart` | infrastructure/components/alerting/pre-plan-copies.ts:247-259 | Neither consumer may write the other's keys, except a marker whose id is the other's word |
| `TableGrants.WritableByBoth` | infrastructure/components/alerting/pre-plan-copies.ts:46-59 | Among all strings, both may write exactly the keys that hold the delimited marker name of one and end in the other's word or hold its marker name too |
| `ApparatusRoute.ApparatusStatements` | infrastructure/components/apparatus/apparatus-lambda.ts:53-94 | The statements built from any route spec, or nothing exactly where an ARN is missing that the builder needs |
| `ApparatusRoute.RoleAllowsExactly` | infrastructure/components/apparatus/apparatus-lambda.ts:60-94 | Every request the built statements allow: a grant's actions at exactly its targets, table or index; the policy store's two actions; puts of objects behind the asset prefix; logs, traces and metrics of the service |
| `ApparatusRoute.WritesAuthorized` | infrastructure/components/data/platform-table.ts:29-47 | UpdateItem, DeleteItem and BatchWriteItem on any keys: authorized if and only if granted, and not denied as a request on audit rows alone |
| `ApparatusRoute.AuditRowWritesAuthorized` | infrastructure/components/apparatus/apparatus-lambda.ts:74-84 | On an audit row: if and only if a table grant reaches the action and none names UpdateItem or DeleteItem |
| `ApparatusRoute.AuditRowsStay` | infrastructure/components/apparatus/apparatus-lambda.ts:46-52 | Over any run of authorized calls under exact grants, with puts to free keys, every audit row stays as written |
| `ApparatusRoute.MixedBatchGetsPast` | infrastructure/components/data/platform-table.ts:36-45 | A batch with one other key is not denied |
| `RouteRegistry.HttpApi.AuthorizedRoute` | infrastructure/components/api/http-api.ts:406-438 | The route under its key and name, with the alerting authorizer if and only if its key is reserved; the new registry, and the warning for a late reserved route |
| `RouteRegistry.RoutesAreTheLastOnes` | infrastructure/components/api/http-api.ts:406-438 | In every sequence of calls each remembered route is reserved, has the alerting authorizer and bears the name of its key's last registration before the seal |
| `RouteRegistry.HttpApi.SealRouteSettings` | infrastructure/components/api/http-api.ts:651-673 | When it throws, and the registry it leaves |
| `RouteRegistry.SettledOnce` | infrastructure/components/api/http-api.ts:644-673 | For all call sequences the settings resolve at most once and are those the first seal saw |
| `RouteRegistry.SettingsAreTheRoutesBefore` | infrastructure/components/api/http-api.ts:666-672 | They are the reserved routes registered before, each once, with its own throttle |
| `RouteRegistry.RequireAllCoversTheTable` | infrastructure/components/api/http-api.ts:651-662 | A sealing call that requires all covers exactly the table |
| `RouteRegistry.ThrowingSealIsNoCall` | infrastructure/components/api/http-api.ts:652-661 | A seal that throws changes nothing for the rest of the run |
| `RouteRegistry.NoneBelowTheDefault` | infrastructure/components/api/http-api.ts:65-107 | No reserved route is throttled below the stage default |
| `Throttle.AdmittedIffFits` | infrastructure/components/alerting/cad-ingress.ts:41-48 | A request is admitted if and only if it fits burst and rate over every window that ends with it |
| `Throttle.WindowBound` | infrastructure/components/api/http-api.ts:65-71 | No window admits more than the burst and the rate over its length |
| `Throttle.KeysAreIsolated` | infrastructure/components/alerting/cad-ingress.ts:753-768 | In any interleaving a key is told what it would be told alone |
| `Throttle.ServedAsAdmitted` | infrastructure/components/alerting/cad-ingress.ts:753-768 | And alone it is admitted as the windows say |
| `Throttle.OneKeyLeavesHalf` | infrastructure/components/alerting/cad-ingress.ts:41-54 | For every rate, burst and concurrency, requests of one key that come at once leave at least as much concurrency as they take, in all traffic, if and only if the burst is at most half of it |
| `SendPolicy.OnlyTheRuleMaySend` | infrastructure/components/messaging/rule-delivery.ts:4-32 | The queue's policy authorizes a send if and only if EventBridge sends, to that queue, for the rule's own ARN |
| `SendPolicy.ArnHasFiveColons` | infrastructure/components/messaging/rule-delivery.ts:24-27 | What `ArnEquals` can compare at all: strings with at least five colons |
| `RuleDelivery.EveryCopyIsSomewhere` | infrastructure/components/messaging/rule-delivery.ts:52-128 | In every run, as multisets, the matched events and the copies made of them are those at the rule, in the queue and ended |
| `RuleDelivery.ConsumesIffTheRuleIsNamed` | infrastructure/components/messaging/rule-delivery.ts:4-32 | Anything at all is consumed if and only if the queue's policy names the rule's own ARN |
| `RuleDelivery.NamingTheBusConsumesNothing` | infrastructure/components/messaging/rule-delivery.ts:4-12 | With a policy that names the bus nothing is consumed in any run |
| `RuleDelivery.NamingAnotherArnIsCounted` | infrastructure/components/messaging/rule-delivery.ts:4-32 | With both policies naming another ARN nothing is queued or consumed, and the two lost-event sums of a minute add up to all events that ended in it |
| `RuleDelivery.AlarmsAreExact` | infrastructure/components/messaging/queue-consumer.ts:62-178 | Each lost-event sum is over its threshold in exactly the minutes an event was lost its way; the depth maximum is in every period something was dead-lettered and in none before |
| `RuleDelivery.DeliveryIsNeverSilent` | infrastructure/components/messaging/rule-delivery.ts:52-128 | No event ends unconsumed without its alarm's threshold crossed in the period it ended, but for one that expired in the queue |
| `RuleTiming.EveryEventEnds` | infrastructure/components/messaging/queue-consumer.ts:62-178 | In every prompt run all copies of an event have ended once the retry window and one more receive than the redrive limit, with the gaps between, have passed |
| `RuleTiming.EndsWithinExactly` | infrastructure/components/messaging/queue-consumer.ts:62-178 | A bound on that time holds for all prompt runs if and only if it is at least the window and (maxReceiveCount + 1) gaps |
| `RuleTiming.NeverExpiresIff` | infrastructure/components/messaging/queue-consumer.ts:62-84 | No event expires in the queue in any prompt run if and only if the receives fit into the retention with the gaps between them |

## Left out

- PagingQueue.PagesAreConserved: message retention, FIFO throughput limits and several groups sharing one poll; a group is polled by itself.
- PagingTransport.EveryPageIsAccountedFor: the SHA-256 digest of the deduplication id is taken to be injective, and the queue's own deduplication is not modelled beside the topic's.
- LoginConvergence.LoginAgreesOrEventOutstanding: each Cognito or DynamoDB call takes effect in one atomic step, once or more often; events without a member id and profile-change events are not modelled.
- Sessions.InactiveMemberIsOutOnceMarked: assumes markers written later are not stamped earlier, and a bound on how far an ordinary read lags, which is a parameter; one authorizer instance, of many that share nothing.
- StreamMapping.PoisonIsolationIsExact: whether the service bisects a batch reported failed at its first record is a parameter; the reports of the service differ on it.
- OutboxDrain.PublishChunk: the bus answers every entry of a request that it answers at all; how often the client sends a request again is not bounded.
- CadUpdates.LatestWins: a message's time is taken as resolved; placing a bare time of day near its receipt is not modelled. Content hashes are taken to be injective.
- CadIngress.OnePageAWindow: messages are committed within the seven days an expired lock is kept.
- CadNotices.SweepFindsTheRest: the lag of an ordinary read is a parameter; counting updates older than ten minutes is not modelled.
- CadNotices.NoNoticeIsLost: the audience and the per-member claims of one notice are one step; markers expire after a week, as in the code.
- CedarText.PrintedParses: pool ids, groups and actions without quotes and backslashes; the grammar is the permit form these policies use, not all of Cedar.
- Iam.BoundaryIsExact: ARNs without wildcards; resource policies, session policies and service control policies are not part of this model.
- Throttle.AdmittedIffFits: arithmetic over real numbers; the gateway's own best-effort distribution of buckets is not modelled.
- RuleDelivery.DeliveryIsNeverSilent: whether EventBridge dead-letters or only counts a send that failed for good is left open; how the service emits and delays its metrics, the alarm's notification, and the retention and redrive of the dead-letter queue are not part of this model.
- Vendor calls, Cognito, Secrets Manager, SES and the clients' own retries: outcomes of steps, never modelled as code. CAD transactions are taken to carry the client's token that makes the service run a repeated one once.
- SendGuard.PagedOncePlusLost: channels with one target (sms, voice), real pages; a push page's progress over several devices is not modelled. Clocks agree and count whole seconds. A write takes effect before its worker ends or never.
- SendGuard.NeverDroppedIff: the theorem is about real pages of active members with a target; pages of a member who is inactive or has no target are acknowledged unsent, as the code means them to be. The queue mapping demands a visibility of at least the worker's timeout, so that a message comes again only when its worker has ended.
- The tone ladder's timing and the mass-invalidation latch.
- `vendorWorkerCredentials`, `cadWebhookSecretPrefix` and the other constructors that only assemble resources.
- Resource construction, names, log groups, dashboards, encryption keys and single-threshold alarms: declarations with no behaviour to prove.
- The Cedar schema and the resource types of actions: tables checked by enumeration.
- The per-service route wiring, which repeats the apparatus builder.
