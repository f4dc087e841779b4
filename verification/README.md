# Verification of the AI SOC protocols

A Dafny model of the stateful and algorithmic core of the system, with proofs about whole runs. Each module follows one
component. Where the source updates objects step by step, the model is a class or a loop whose contract ties it to a
transition function; the results over runs are lemmas about that function.

| part | modules |
|---|---|
| rotating refresh sessions and the browser that uses them | `AuthSessions`, `AccessTokens`, `AuthServices`, `BrowserRefresh`, `BrowserLimits`, `ApiClients` |
| inlining and reduction of JSON schemas | `JsonValues`, `SchemaInlining`, `SchemaPointers`, `SchemaSemantics`, `InliningPreservation`, `SchemaReduction`, `SchemaLimits`, `SchemaExactness` |
| investigation jobs across the table and the queue | `InvestigationJobs`, `InvestigationHistory`, `InvestigationTiming`, `InvestigationStores`, `InvestigationActors` |
| response actions | `ResponseActions`, `ResponseHistory`, `ResponseSweeps` |
| feature windows for training and serving | `EventFeatures`, `EventColumns`, `FeatureWindows`, `FeatureDataset`, `Totals` |
| audit hash chain | `AuditChain` |
| hourly circuit breaker, login throttle | `CircuitBreakers`, `BreakerVerdicts`, `LoginLimiter`, `TimeWindows` |
| context trimming | `ContextTrimming`, `ReferenceLists` |
| realtime fan-out and the client's version gate | `FanOut`, `Utf8`, `VersionGate`, `UpdateKinds`, `RealtimeDelivery` |
| risk score | `RiskScoring`, `ScoreComposition` |

`dafny verify dfyconfig.toml` checks the whole project.

How the model reads the source:

- A service call is one atomic, serialisable transaction. Time, fresh identifiers and secrets are parameters. A digest is
  a free constructor, hence injective.
- `BrowserRefresh` interleaves the steps of any number of tabs with each other, with the server and with other clients
  of the same table: calling, sending with the cookie of that moment, serving, receiving. Logins, registrations and
  logouts have these steps too and are not under the lock. A rejected refresh may or may not clear the cookie. In honest
  runs no presented session has expired, and nobody else revokes this browser's families or deactivates their owners.
  Logouts belong to these runs; `BrowserLimits` says exactly which of them are harmless. The client has no call that
  changes a password.
- Schema validity follows JSON Schema Draft 2020-12 for `$ref` (section 8.2.3.1 of the Core specification), `$defs`
  (section 8.2.4), `allOf`, `anyOf`, `oneOf`, `not`, `items`, `prefixItems`, `properties`, `patternProperties`,
  `additionalProperties`, `type`, `enum`, `const` and `required`. Any other keyword is a function of its argument and
  the value, given by a vocabulary that is a parameter. That cannot express `if` with `then` and `else`, `contains` with
  `minContains` and `maxContains`, `unevaluatedItems`, `unevaluatedProperties`, `dependentSchemas`, `propertyNames`,
  `contentSchema`, or `$id`, `$anchor`, `$dynamicRef` and `$dynamicAnchor`: the results do not speak of schemas that
  use them with their standard meaning.
- A local reference is decoded as a URI fragment (section 2.1 of RFC 3986) and as one token of a JSON Pointer (section 4
  of RFC 6901). One that leads deeper than a definition, or is malformed, is left to the vocabulary.
- Both schema results are exact over classes of schemas: by the keywords beside a reference, by the names references
  spell, by property names, by plain data, and for reduction by the keywords used.
- The reducer's docstring promises a subset of the schema; the code also drops keywords that kept ones depend on. The
  model follows the code; `SchemaExactness` says for which keywords the output can be stricter than the input.
- One value, `Err`, stands for the `ValueError`, `AttributeError` and `RecursionError` of the schema functions.
- Investigation agents act in single steps: a commit, a push, a pop, a claim, an outcome. `enqueue_delayed`,
  `promote_delayed` and `schedule_retry` have no caller in the repository; they are composed as commit, then push, as
  `request_investigation` does it. However many agents promote, none duplicates or loses a retry; `InvestigationTiming`
  says exactly when none is released before its time.
- `InvestigationActors` runs the requester, the worker and the promoter over the stores and ties each call to its events.
- A response action's push may be lost; the recovery sweep reads any hundred approved actions the database likes.
- The audit chain's `canonical_json` is an injective encoding that begins with `{`, as objects do in section 4 of RFC
  8259; hash outputs are injective, never contain a brace and never equal the start value.
- The browser's version keys are glued from kind and entity, so subjects can share one when a kind holds a colon;
  `UpdateKinds` says exactly when that hides updates.
- Confidences are integers in hundredths; averages are exact. Times are integers.
- In the login throttle an attempt is checked, verified and recorded at three moments in order; attempts follow one
  another. The bound counts failures at any moment of theirs between check and record.
- A context's elements are carried as their JSON texts, so sizes are real lengths; how an alert or a timeline entry is
  shortened, and how a reference is quoted, are parameters.

## Model

| member | source | states |
|---|---|---|
| AuthSessions.RunKeepsHistory | backend/app/services/auth_service.py:164-313 | Over every run of logins, refreshes, logouts and password changes no session row disappears, no revocation time is cleared or moved, no successor changes, and every session with a successor is revoked |
| AuthSessions.StepKeepsChains | backend/app/services/auth_service.py:197-211 | One service call turns chains into chains: a rotation appends to its family, a login starts a family, everything else only revokes |
| AuthSessions.RunKeepsChains | backend/app/services/auth_service.py:164-313 | In every reachable state the sessions of each family form one rotation chain, oldest first, all but the last revoked |
| AuthSessions.ChainMeaning | backend/app/services/auth_service.py:197-211 | Within a family: at most one unrevoked session, one user, no shared successor, and links that stay inside the family |
| AuthSessions.LinksNeverReturn | backend/app/services/auth_service.py:197-211 | The `replaced_by_id` links are acyclic: following one or more of them never comes back |
| AuthSessions.OneRoot | backend/app/services/auth_service.py:197-211 | A family has only one session that replaced nobody |
| AuthSessions.ReachedFromRoot | backend/app/services/auth_service.py:197-211 | Every session is reached from the root of its family by following replacements |
| AuthSessions.DeadStaysDead | backend/app/repositories/auth_repository.py:75-89 | A family whose sessions are all revoked stays so over every later run |
| AuthSessions.DeadFamilyIsUseless | backend/app/security/dependencies.py:43-53 | In a dead family every access token is rejected and every refresh with a known token takes the reuse branch, at any time |
| AuthSessions.KilledIsDead | backend/app/services/auth_service.py:178-188 | A refresh with a known token that no longer works, a logout, a password change, a deactivation, a change of role and a revocation each leave the families they concern without a live session |
| AuthSessions.KilledFamilyStaysUseless | backend/app/services/auth_service.py:178-276 | After any of those calls, over every later run: the family is dead, its refreshes fail, its access tokens are rejected |
| AuthSessions.TokenWorksOnce | backend/app/services/auth_service.py:164-233 | Of any number of refreshes that present one token, over any run, at most one succeeds |
| AuthSessions.RotatedIffLive | backend/app/services/auth_service.py:164-233 | A refresh succeeds if and only if the token is live; the new token is then live and the old one is not |
| AccessTokens.IssuedClaimsSay | backend/app/services/auth_service.py:288-313 | The claims in the answer to a login, a registration or a refresh are those of its recipient, from the second of the call on, for the lifetime of access tokens |
| AccessTokens.IssuedClaimsWork | backend/app/security/dependencies.py:34-64 | Those claims are accepted from the call until they expire, and not an instant longer, over every later run that leaves their family, their user and the password alone, for as long as the session lasts |
| AccessTokens.IssuedClaimsWorkAtOnce | backend/app/security/dependencies.py:45-54 | After any run from the empty table they are accepted at once, in the very second in which the credentials changed |
| AccessTokens.OlderClaimsFail | backend/app/security/dependencies.py:45-54 | After a password change, over every later run, claims of an earlier second are rejected, whatever family they name and however alive it is |
| AccessTokens.IssuedTokenWorks | backend/app/services/auth_service.py:164-233 | The refresh token in the answer works until it is presented, for its lifetime and not longer, over every later run that leaves its family, its user and the password alone |
| AccessTokens.LastPasswordWorks | backend/app/services/auth_service.py:256-286 | An active user logs in with the password last set and with no other, over every run without a further change |
| AccessTokens.DeactivatedIsLockedOut | backend/app/security/dependencies.py:45-54 | Until reactivated, over every run, a deactivated user has no login, no live refresh token and no accepted access token |
| AuthServices.AuthService.GetForUpdate | backend/app/repositories/auth_repository.py:56-60 | The row of a session, if there is one |
| AuthServices.AuthService.RevokeFamily | backend/app/repositories/auth_repository.py:75-81 | The loop over the table ends in the state in which exactly the unrevoked sessions of the family were revoked now |
| AuthServices.AuthService.RevokeUser | backend/app/repositories/auth_repository.py:83-89 | Likewise for all sessions of a user |
| AuthServices.AuthService.NewSession | backend/app/services/auth_service.py:288-313 | Inserts one unrevoked session with the digest of the secret and returns the matching token and claims |
| AuthServices.AuthService.Login | backend/app/services/auth_service.py:69-112 | The limiter is asked first and told the outcome, as one attempt of its runs; a recognised user gets a session of a new family, as one call of the table's runs; anything else changes no session |
| AuthServices.AuthService.Register | backend/app/services/auth_service.py:114-162 | Refused when limited or when the address is taken; otherwise one registration of the table's runs, answered with the claims and the token that `AccessTokens` is about |
| AuthServices.AuthService.Refresh | backend/app/services/auth_service.py:164-233 | The step-by-step code computes the refresh transition the results above are about, outcome included |
| AuthServices.AuthService.Logout | backend/app/services/auth_service.py:235-254 | Computes the logout transition |
| AuthServices.AuthService.ChangePassword | backend/app/services/auth_service.py:256-286 | Computes the password change transition |
| AuthServices.AuthService.GetCurrentUser | backend/app/security/dependencies.py:34-64 | Accepts exactly the claims of an active user, issued after the last credential change, whose family is active |
| BrowserRefresh.HonestBrowserNeverReplays | frontend/src/lib/api/client.ts:86-118 | On a table shared with any other clients, for any number of tabs under the browser lock, in every interleaving of logins, registrations, refreshes and logouts that do not overtake a refresh: each refresh presents a live token or no cookie, and of this browser's families only logged-out ones die |
| BrowserRefresh.EventKeepsInv | frontend/src/lib/api/client.ts:86-187 | Every honest and safe event of a tab, or of anybody else on the table, keeps the protocol invariant |
| BrowserRefresh.ServeKeepsInv | backend/app/services/auth_service.py:164-233 | Serving a refresh keeps the protocol invariant and never finds a stale token |
| BrowserRefresh.OtherCallsAreElsewhere | backend/app/services/auth_service.py:69-286 | Every call of another client that presents no token of this browser and names no owner of its families is covered by the environment's event |
| BrowserLimits.SafeIff | frontend/src/lib/api/client.ts:177-187 | In every state honest and safe runs reach, an event is safe (a logout not served while a refresh of its family is on its way, a refresh not sent with a logged-out cookie) if and only if no safe continuation of it replays |
| BrowserLimits.LogoutHarmlessIff | frontend/src/lib/api/client.ts:177-187 | A logout served and answered at once is never followed by a replay, until the next logout, if and only if no tab has a refresh of its family (or one logged out before) in flight, sent or rotated |
| BrowserLimits.CourteousLogoutsNeverReplay | frontend/src/lib/api/client.ts:177-187 | If logouts took turns with refreshes, runs with any number of logouts would be free of replays |
| BrowserLimits.LogoutRacesRefresh | frontend/src/lib/api/client.ts:177-187 | They do not: with or without locks, one tab can race its own refresh with a logout into a replay, by a run from the start |
| BrowserLimits.WithoutLockTwoTabsReplay | frontend/src/lib/api/client.ts:86-91 | Where the browser has no locks, two tabs can trip replay detection without any logout: a run that does it |
| BrowserLimits.NeverReplaysIff | frontend/src/lib/api/client.ts:86-118 | From any table, over all safe honest runs, the guarantee holds if and only if there are locks or at most one tab |
| ApiClients.ApiClient.PublishSession | frontend/src/lib/api/client.ts:30-33 | Publishing replaces the access token and tells every listener once |
| ApiClients.ApiClient.RefreshSession | frontend/src/lib/api/client.ts:111-118 | A second call while a refresh is pending joins it: the tab moves as in the protocol |
| ApiClients.ApiClient.FinishRefresh | frontend/src/lib/api/client.ts:93-118 | The answer is published and the promise cleared, as in the protocol; on an error other than a rejection only the promise is cleared |
| ApiClients.ApiClient.FinishLogout | frontend/src/lib/api/client.ts:177-187 | Whatever the answer, the token is dropped and every listener told |
| SchemaInlining.ResolveRemovesDefs | backend/app/investigation/provider.py:53-74 | Whatever is inlined has no `$defs` left anywhere |
| SchemaInlining.ResolveRemovesRefs | backend/app/investigation/provider.py:53-74 | Inlining leaves no local reference, for definitions none of which is a string spelling one |
| SchemaInlining.OutputHasNoRefIff | backend/app/investigation/provider.py:53-74 | Given the definitions, inlining removes every local reference for all inputs if and only if none of them is a bare string that spells a reference |
| SchemaInlining.ResolveIdempotent | backend/app/investigation/provider.py:53-74 | Inlining an inlined value changes nothing |
| SchemaInlining.ReinlineUnchangedOrErr | backend/app/investigation/provider.py:27-50 | The inlining repeated at each nested call is a no-op or raises |
| SchemaInlining.RankedResolves | backend/app/investigation/provider.py:53-74 | With ranked definitions expansion ends and succeeds, by (definitions left, size) |
| SchemaInlining.ResolveFromFewerOpen | backend/app/investigation/provider.py:57-72 | The outcome of an expansion, and the definitions it visits, do not depend on where it is nested |
| SchemaInlining.ExpansionTerminatesIff | backend/app/investigation/provider.py:53-74 | Every definition can be expanded if and only if the definitions are acyclic and name only each other |
| SchemaInlining.AcyclicSchemaInlines | backend/app/investigation/provider.py:53-74 | A schema over such definitions, whose own references are known, is always inlined |
| InliningPreservation.InliningPreservesMeaning | backend/app/investigation/provider.py:53-74 | A value is valid for a schema with its definitions if and only if it is valid for the inlined schema, which has no reference |
| InliningPreservation.ResolvedKeywordIff | backend/app/investigation/provider.py:57-72 | The same, keyword by keyword |
| InliningPreservation.ResolvedWellFormed | backend/app/investigation/provider.py:53-74 | Inlining stays within the fragment it started in |
| SchemaReduction.GoogleJsonSchema | backend/app/investigation/provider.py:27-50 | The recursion that inlines again at every level returns what one inline and one clean return |
| SchemaReduction.GoogleMember | backend/app/investigation/provider.py:33-50 | One supported keyword is cleaned part by part: the list, the map of schemas, or the single schema |
| SchemaReduction.ReductionOnlySupported | backend/app/investigation/provider.py:15-50 | Whatever the schema, every schema level of the output uses supported keywords only |
| SchemaReduction.ReductionRelaxes | backend/app/investigation/provider.py:27-50 | Over a relaxable set of keywords every value valid for the original is valid for the reduced schema |
| SchemaExactness.KeywordsRelaxedIff | backend/app/investigation/provider.py:15-50 | Reduction relaxes every schema over a set of keywords if and only if the set does not hold `prefixItems` with `items`, nor `patternProperties` with `additionalProperties`, nor `oneOf` with an assertion that is dropped |
| SchemaExactness.KeywordsKeptIff | backend/app/investigation/provider.py:15-50 | Reduction is exact for every schema over a set of keywords if and only if the set holds annotations and the eight supported keywords only |
| SchemaReduction.ReductionExactWhenLossless | backend/app/investigation/provider.py:27-50 | Where nothing is dropped but annotations, `oneOf` included, the reduced schema accepts precisely the same values |
| SchemaExactness.SiblingsPreservedIff | backend/app/investigation/provider.py:61-69 | Inlining preserves every schema whose references have siblings from a set if and only if the set holds annotations only |
| SchemaExactness.RefsPreservedIff | backend/app/investigation/provider.py:61-69 | Inlining preserves every schema whose references spell names from a set if and only if no pointer or percent escape plays a part in any of them |
| SchemaPointers.PlainNameIff | backend/app/investigation/provider.py:62-65 | A reference names the definition it spells, as inlining takes it, exactly when it has none of `/`, `~` and `%` |
| SchemaExactness.NamesPreservedIff | backend/app/investigation/provider.py:57-72 | Inlining preserves every schema whose property names are from a set if and only if `$defs` is not among them |
| SchemaExactness.DataPreservedIff | backend/app/investigation/provider.py:57-72 | Inlining preserves every schema whose data (under `const`, `enum` and the like) is from a set if and only if none of it has a `$defs` member or spells a local reference |
| SchemaExactness.RewrittenDataIsLost | backend/app/investigation/provider.py:57-72 | Data that is not plain is rewritten by inlining, and the schema no longer accepts it |
| SchemaLimits.OneOfCanTighten | backend/app/investigation/provider.py:15-50 | Two alternatives of `oneOf` that differ only in dropped keywords: the reduced schema accepts nothing |
| SchemaLimits.PrefixItemsCanTighten | backend/app/investigation/provider.py:15-50 | Without `prefixItems`, `items` applies to the elements it had covered, and can reject what was accepted |
| SchemaLimits.PatternPropertiesCanTighten | backend/app/investigation/provider.py:15-50 | Likewise for `patternProperties` and `additionalProperties` |
| SchemaLimits.SiblingOfRefIsLost | backend/app/investigation/provider.py:61-69 | An assertion beside a reference is lost when the reference is inlined |
| SchemaLimits.PropertyNamedDefsIsLost | backend/app/investigation/provider.py:57-72 | A property called `$defs` is dropped as if it held definitions |
| InvestigationJobs.AgentStatus | backend/app/services/investigation_service.py:66-111 | Whoever holds a copy holds it of a queued job; whoever works, works on a running one |
| InvestigationJobs.EventKeepsOneCopy | backend/app/workers/investigation.py:35-98 | Each commit, push, pop, claim, outcome, delay and promotion keeps the count of copies and of workers right |
| InvestigationJobs.EventKeepsInv | backend/app/repositories/investigation_repository.py:61-179 | Each event keeps the whole invariant: copies, the index by context, the accounts of submissions, and the rows |
| InvestigationJobs.ExactlyOneCopy | backend/app/investigation/queue.py:20-50 | In every interleaving a queued job has exactly one copy and no worker, a running job one worker and no copy, any other job neither; a job is claimed at most once per submission |
| InvestigationJobs.NeverTwice | backend/app/repositories/investigation_repository.py:61-81 | No two workers ever run one job, and no two promoters ever hold one entry |
| InvestigationJobs.PoppedIsClaimed | backend/app/workers/investigation.py:35-49 | A worker that pops a job claims it |
| InvestigationJobs.QueuedIsSomewhere | backend/app/investigation/queue.py:20-50 | A queued job is never lost: it is ready, delayed, or in some agent's hand |
| InvestigationJobs.UndisturbedPromotion | backend/app/investigation/queue.py:32-42 | Left alone, a promoter moves its whole scan, in order, to the end of the ready list |
| InvestigationHistory.RequestRevives | backend/app/services/investigation_service.py:66-111 | A request starts the job of its context, newly submitted once, exactly when there is none or it has failed; otherwise it changes nothing; afterwards the job has not failed |
| InvestigationHistory.EventMovesRow | backend/app/repositories/investigation_repository.py:61-179 | Which event takes a job from which status to which, by whom, and every field it leaves; a completed row never changes, a failed one can only be queued by a request |
| InvestigationHistory.CompletedForGood | backend/app/services/investigation_service.py:92-96 | Over every run a completed row stays exactly as it is, answer and all |
| InvestigationHistory.FailedWaits | backend/app/services/investigation_service.py:92-96 | Over every run without a request for its context a failed row stays exactly as it is |
| InvestigationHistory.CompletedIffAnswered | backend/app/workers/investigation.py:35-98 | A job is completed with an answer if and only if a worker that ran it completed it with that answer |
| InvestigationHistory.AttemptsAreClaims | backend/app/repositories/investigation_repository.py:61-81 | Over every run the attempts of a job are the number of its claims |
| InvestigationHistory.DelayedAsScheduled | backend/app/repositories/investigation_repository.py:104-123 | Whatever is in the delayed set is queued in the table, to be retried at that very time |
| InvestigationTiming.TurnsReleaseOnTime | backend/app/investigation/queue.py:32-42 | If each scan begins only while no other promoter works through one, every entry that is released was due when its promoter scanned, in every interleaving with requests, workers and retries |
| InvestigationTiming.TwoPromotersReleaseEarly | backend/app/investigation/queue.py:32-42 | With two promoters a run from the start releases a retry whose time no clock has shown: the second acts on a scan from before the entry was scheduled anew |
| InvestigationTiming.ReleasesOnTimeIff | backend/app/investigation/queue.py:32-42 | Over all runs no retry is released early, by its promoter's scan or by any clock, if and only if at most one agent promotes |
| InvestigationStores.InvestigationQueue.Dequeue | backend/app/investigation/queue.py:44-50 | Takes the first id, if there is one |
| InvestigationStores.InvestigationQueue.ZRangeByScore | backend/app/investigation/queue.py:32-34 | The due entries, each once, by ascending time |
| InvestigationStores.InvestigationQueue.PromoteDelayed | backend/app/investigation/queue.py:32-42 | Exactly the due entries move, once, in order, to the end of the ready list |
| InvestigationStores.InvestigationRepository.Claim | backend/app/repositories/investigation_repository.py:61-81 | Only a queued row can be claimed, and the caller learns whether it was |
| InvestigationActors.InvestigationSystem.RequestInvestigation | backend/app/services/investigation_service.py:46-111 | Refused without a change when disabled or without an incident; otherwise one request event of the protocol, then a push or a failed push exactly when the request made one due |
| InvestigationActors.InvestigationSystem.ProcessInvestigation | backend/app/workers/investigation.py:35-98 | Over the stores the call is the claim event, and the completing or failing event exactly when the claim was won |
| InvestigationActors.InvestigationSystem.WorkerTurn | backend/app/workers/investigation.py:136-141 | One turn of the loop is pop, claim and end, or nothing when nothing is ready |
| InvestigationActors.InvestigationSystem.RetryLater | backend/app/repositories/investigation_repository.py:104-123 | Scheduling a retry and entering the delayed set are the protocol's two retry events |
| InvestigationActors.InvestigationSystem.Promote | backend/app/investigation/queue.py:32-42 | Promotion is a scan, then a removal and a push for each due entry, as a run of the protocol |
| ResponseActions.EventKeepsInv | backend/app/services/response_actions.py:39-143 | Each event keeps: effects begun match statuses, one executor per running action, two persons per decision, one action per key |
| ResponseActions.RunMovesForward | backend/app/services/response_actions.py:71-143 | Over any run an action keeps its content and moves forward only; a final status never changes |
| ResponseActions.AtMostOnceByTwoPersons | backend/app/services/response_actions.py:71-143 | With any number of workers, duplicate entries, lost pushes and overlapping sweeps, an effect begins at most once, only after approval by someone other than the proposer |
| ResponseHistory.StatusTellsPast | backend/app/services/response_actions.py:71-143 | Over every run an action is succeeded, or failed, if and only if the agent executing it ended its effect well, or badly; rejected, or approved and beyond, if and only if somebody other than its proposer decided so while it was proposed, AWS allowing |
| ResponseHistory.StoredIffProposed | backend/app/services/response_actions.py:39-69 | An action is stored if and only if it was validly proposed under a new key, with the content and the proposer of that proposal |
| ResponseActions.OneActionPerKey | backend/app/services/response_actions.py:39-69 | Proposals with one idempotency key are one action |
| ResponseActions.SweepExecutesPage | backend/app/workers/investigation.py:126-135 | A sweep executes precisely its page, in order |
| ResponseSweeps.InterleavedSweepsDrain | backend/app/workers/investigation.py:126-135 | From any reachable state, in any run without an approval and with everything else interleaved freely: once one worker has completed n sweeps, at most max(0, k - 100n) of the k approved actions are left |
| ResponseActions.SweepsDrain | backend/app/workers/investigation.py:126-135 | Left undisturbed, n sweeps leave exactly that many, however the database picks its pages |
| ResponseActions.ResponseActionService.Propose | backend/app/services/response_actions.py:39-69 | Computes the proposal event: one new action, or the one that has the key already |
| ResponseActions.ResponseActionService.Decide | backend/app/services/response_actions.py:71-86 | Computes the decision event, and reports whether it was allowed |
| ResponseActions.ResponseActionService.ExecuteAction | backend/app/services/response_actions.py:97-143 | An approved action is claimed, executed and ended once, succeeded or failed as its effect did; any other is left alone |
| ResponseActions.ResponseActionService.RecoverySweep | backend/app/workers/investigation.py:126-135 | Reads a page and executes it: exactly its ids leave the approved ones, in order, each ending as its effect did |
| ResponseActions.ResponseActionService.ReadPage | backend/app/workers/investigation.py:126-135 | Up to a hundred distinct approved ids |
| EventColumns.FeaturesDescribe | backend/app/ml/features.py:33-64 | What every column is, by name: the size of a set of window events, a sum of bytes, the number of distinct users or sources, or a property of the event |
| EventColumns.DescriptionIsUnique | backend/app/ml/features.py:33-64 | Only one vector fits that description |
| EventFeatures.FeaturesOfMultiset | backend/app/ml/features.py:33-64 | The feature vector depends on the window's events and how often each occurs, not on their order |
| FeatureWindows.SortOrders | backend/app/ml/dataset.py:14-15 | Sorting the log orders it and keeps the multiset of its events |
| FeatureWindows.SortedByTimeThenCreation | backend/app/ml/dataset.py:14-15 | That order is by timestamp, and by creation where timestamps are equal |
| FeatureWindows.WindowFound | backend/app/ml/dataset.py:17-22 | Where the left pointer stops, the slice is the naive window |
| FeatureWindows.SlideWindow | backend/app/ml/dataset.py:14-23 | Every row is built from exactly the naive window, and the inner loop takes at most one step per event in all |
| FeatureDataset.BuildDataset | backend/app/ml/dataset.py:14-23 | Row i describes, column by column, the i-th event in order over its naive window |
| FeatureDataset.TrainingEqualsServing | backend/app/ml/aggregation.py:9-18 | In ingestion order, the vector served when an event arrives equals its training row if and only if the window is not negative |
| AuditChain.VerifyChain | backend/app/response/audit_chain.py:22-56 | Reports intact exactly for a verified chain, and otherwise the first record that does not fit and the first check it fails |
| AuditChain.TruthyIff | backend/app/response/audit_chain.py:22-56 | A pointer is missing when it is absent, null, false, zero or empty |
| AuditChain.NextRecord | backend/app/response/audit_chain.py:22-56 | What one more good record means for the chain |
| AuditChain.VerifiesConcat | backend/app/response/audit_chain.py:22-56 | A chain may be verified in parts, each from the hash the one before it ended on |
| AuditChain.SameHashSameRecord | backend/app/response/audit_chain.py:13-19 | Two fitting records with one hash agree on every field except `id`, and have one predecessor hash |
| AuditChain.TamperEvidentIff | backend/app/response/audit_chain.py:13-56 | Another list verifies from the same start to the same end if and only if it has the same length and agrees on every field except `id` |
| CircuitBreakers.CircuitBreaker.Answer | backend/app/response/circuit_breaker.py:44-61 | Prune, count and answer in the source's order |
| CircuitBreakers.CircuitBreaker.IsTripped | backend/app/response/circuit_breaker.py:44-61 | One check of the run: with a clock that does not go back, the verdict is that of the full, never pruned log |
| CircuitBreakers.CircuitBreaker.RecordExecution | backend/app/response/circuit_breaker.py:63-77 | One record of the run: after a clear check, the caps of every hour still hold |
| CircuitBreakers.RecordKeepsCap | backend/app/response/circuit_breaker.py:51-77 | An execution after a clear check fits in every hour that contains it |
| CircuitBreakers.SlidingHourCap | backend/app/response/circuit_breaker.py:44-77 | In any run whose executions each follow a clear check, every hour, wherever it starts, holds at most the cap of executions and of disruptive ones |
| CircuitBreakers.PruningIsInvisible | backend/app/response/circuit_breaker.py:48-50 | A verdict over the pruned history is the verdict over the full log |
| BreakerVerdicts.ClearIffBelowCaps | backend/app/response/circuit_breaker.py:44-77 | After any run a check is clear if and only if the switch is off and the executions and the disruptive ones recorded in the last hour, counted over the calls, are below their caps; otherwise it names the first that fails, with its count |
| CircuitBreakers.PrunedRunAnswersLikeFullLog | backend/app/response/circuit_breaker.py:44-77 | After any run with a clock that does not go back, pruning has changed no verdict |
| LoginLimiter.LoginRateLimiter.IsLimited | backend/app/security/rate_limit.py:15-19 | Limited exactly when a live counter of the account or the address has reached its limit |
| LoginLimiter.LoginRateLimiter.RecordFailure | backend/app/security/rate_limit.py:21-25 | Both counters go up; a first failure opens a window, a later one keeps it |
| LoginLimiter.LoginRateLimiter.ClearAccount | backend/app/security/rate_limit.py:27-28 | Only the account's counter goes |
| LoginLimiter.NextFailure | backend/app/security/rate_limit.py:21-25 | One more failure keeps the account of which failures a counter stands for |
| LoginLimiter.RunKeepsInv | backend/app/services/auth_service.py:72-102 | Every run of sequential attempts keeps that account, whatever other accounts and addresses do |
| LoginLimiter.ThrottleBound | backend/app/services/auth_service.py:72-102 | No interval of one window's length sees more than twice the limit of failed password checks, for one address, or for one account that no successful login cleared |
| LoginLimiter.BoundIsReached | backend/app/services/auth_service.py:72-102 | Under every configuration twice the limit is reached, for every account (failures from distinct addresses) and for every address (failures on distinct accounts) |
| LoginLimiter.SuccessLiftsTheBound | backend/app/services/auth_service.py:102-103 | Under every configuration with an account limit of two or more, successes in between let any number of failures through in one instant |
| LoginLimiter.AccountBoundIff | backend/app/services/auth_service.py:69-103 | Over all sequential runs, successful logins included, the bound for accounts holds under exactly the configurations with an account limit of one |
| ReferenceLists.SortedSetAscends | backend/app/investigation/context.py:205-216 | `sorted(set(...))` is strictly ascending in code-point order |
| ReferenceLists.PrecedesIff | backend/app/investigation/context.py:205-216 | That order: at the first place where two strings differ the smaller has the smaller character, or has ended |
| ReferenceLists.SubsetNeedsNoMoreRoom | backend/app/investigation/context.py:205-221 | Distinct references drawn from a list take no more characters than the list |
| ContextTrimming.EnforceSize | backend/app/investigation/context.py:173-217 | Unchanged if it fits; raises if and only if the fully reduced form is too large; otherwise the least number of pops that fits, keeping exactly the rest, with rebuilt references; a context within the limits whose shortened form fits loses no entry; what is returned fits the budget |
| ContextTrimming.PopUntilFits | backend/app/investigation/context.py:191-203 | The loop ends after the least number of pops that fits, or with nothing left to pop |
| ContextTrimming.DropSlices | backend/app/investigation/context.py:191-203 | In closed form: which slice of each list is left after n pops |
| ContextTrimming.PopsInOrder | backend/app/investigation/context.py:191-203 | A list is touched only when those before it have nothing to spare |
| ContextTrimming.SizeShrinks | backend/app/investigation/context.py:191-221 | A pop never makes the text longer |
| ContextTrimming.RebuiltRefsFit | backend/app/investigation/context.py:205-217 | Rebuilding the references never makes a trimmed context longer |
| ContextTrimming.AssembledIsCovered | backend/app/investigation/context.py:74-111 | The contexts that are built list every reference they need |
| ContextTrimming.TrimmingKeepsExactly | backend/app/investigation/context.py:178-203 | In numbers of the original: of the latest 50 timeline entries, events and alerts and the first 30 pieces of evidence, n pops take timeline entries first, then events, alerts and evidence, all but one of each; everything else is kept |
| ContextTrimming.WithinLimitsNothingIsCut | backend/app/investigation/context.py:178-190 | Within 50, 50, 50 and 30 entries the first cut loses none |
| ContextTrimming.SizeCounts | backend/app/investigation/context.py:219-221 | The size in numbers: every list counts with all characters of its elements, its brackets and its commas |
| ContextTrimming.TrimmingKeepsEnds | backend/app/investigation/context.py:178-203 | Kept timeline, alerts and events are suffixes, kept evidence is a prefix, the rest stays, and the incident is marked |
| ContextTrimming.TrimmingEmptiesNothing | backend/app/investigation/context.py:191-203 | No list that had entries is emptied |
| ContextTrimming.TrimmedRefsResolve | backend/app/investigation/context.py:205-216 | After trimming the references are exactly those of what was kept, each once, in order |
| FanOut.RealtimeManager.Connect | backend/app/realtime/manager.py:53-60 | A new connection starts with an empty history, unless the manager is full |
| FanOut.RealtimeManager.Disconnect | backend/app/realtime/manager.py:62-63 | Only that connection goes |
| FanOut.RealtimeManager.Offer | backend/app/realtime/manager.py:97-104 | A full queue drops its oldest message to make room |
| FanOut.RealtimeManager.FanOut | backend/app/realtime/manager.py:92-104 | An oversized message reaches nobody; any other is offered to every connection |
| FanOut.RealtimeManager.Take | backend/app/api/v1/endpoints/realtime.py:82-84 | The sender delivers the oldest message of the queue |
| FanOut.BytesOfEncoding | backend/app/realtime/manager.py:92-93 | The size that is checked is the length of the UTF-8 encoding |
| Utf8.RoundTrip | backend/app/realtime/manager.py:92-93 | Decoding the encoding gives the text back |
| FanOut.QueueIsLatest | backend/app/realtime/manager.py:14-17 | A queue is the suffix of the messages accepted since the connection, of length at most a hundred |
| FanOut.DeliveredInOrder | backend/app/realtime/manager.py:92-104 | What is delivered is a subsequence, in order, of what was accepted before the queue's contents |
| FanOut.LostExactly | backend/app/realtime/manager.py:92-104 | Exactly as many messages are lost as the connection was ever behind by more than a hundred |
| FanOut.CompleteIffKeptUp | backend/app/realtime/manager.py:92-104 | Nothing is lost if and only if the connection was never more than a hundred messages behind |
| FanOut.LatestSurvive | backend/app/realtime/manager.py:92-104 | The latest hundred accepted messages are always delivered or queued |
| VersionGate.RealtimeProvider.HandleMessage | frontend/src/components/providers/realtime-provider.tsx:76-96 | The handler computes the gate's transition and answers heartbeats; the seen set never exceeds a thousand ids |
| VersionGate.ActsOnRecords | frontend/src/components/providers/realtime-provider.tsx:87-101 | Where messages with one id carry the same update, exactly the arrivals that raise their key's version are acted on, and the largest seen is remembered, whatever was evicted or replayed |
| VersionGate.VersionsIncrease | frontend/src/components/providers/realtime-provider.tsx:94-96 | In any run at all the versions acted on per key strictly increase, and the last is remembered |
| VersionGate.NothingTwice | frontend/src/components/providers/realtime-provider.tsx:87-96 | No key and version is acted on twice |
| VersionGate.ReusedIdHidesUpdate | frontend/src/components/providers/realtime-provider.tsx:88-89 | If an id is used for two updates the newer can be ignored |
| VersionGate.ActsOnRecordsIff | frontend/src/components/providers/realtime-provider.tsx:87-101 | For all arrivals from a pool of messages exactly the records are acted on, if and only if any two messages of the pool with one id carry the same update or can neither be acted on |
| VersionGate.SeenAreLatest | frontend/src/components/providers/realtime-provider.tsx:88-93 | Remembered are the latest thousand ids that were new when they came |
| UpdateKinds.KindsNeverHideIff | frontend/src/components/providers/realtime-provider.tsx:94-96 | For messages from a pool in which ids agree, each arrival is acted on exactly when it is the newest of its kind about its entity, if and only if no two subjects of the pool share a key |
| UpdateKinds.PlainKindsAreApart | frontend/src/components/providers/realtime-provider.tsx:94-94 | Kinds without a colon never share one |
| RealtimeDelivery.DrainedClientIsCurrent | frontend/src/components/providers/realtime-provider.tsx:87-101 | A client behind a lossy queue, once it is drained, is at the newest version of every entity whose newest update is among the latest hundred messages |
| RiskScoring.RiskScoringEngine.Score | backend/app/correlation/risk_scoring.py:10-32 | The loop computes the clamped sum, within 0 and 100 |
| ScoreComposition.ScoreIsComposed | backend/app/correlation/risk_scoring.py:10-32 | The score is composed of the alerts counted by severity, the whole points of their average confidence, and the bonuses of the rules that fired, within 0 and 100 |
| ScoreComposition.DefaultScore | backend/app/core/config.py:87-92 | With the default settings: 30, 20, 10 and 5 by severity, 20 for certainty, 15 for the combination and 10 for the support |
| ScoreComposition.SeverityByThresholds | backend/app/correlation/risk_scoring.py:34-42 | The severity rises by one rank at each of 35, 65 and 85 |
| RiskScoring.OrderIndependent | backend/app/correlation/risk_scoring.py:10-32 | The score does not depend on the order of the alerts |
| RiskScoring.LightAlertsDecide | backend/app/correlation/risk_scoring.py:10-32 | Adding alerts with confidences in a range never lowers a score if and only if one more alert of the smallest weight and confidence never lowers the score of alerts of the smallest weight |
| RiskScoring.FewAlertsDecide | backend/app/correlation/risk_scoring.py:10-32 | Where every alert has a weight, up to a hundred such alerts decide: an exact check for all settings without negative values |
| RiskScoring.AverageDropsLittle | backend/app/correlation/risk_scoring.py:21-21 | In a narrow range one more alert lowers the confidence points that count towards a hundred by at most the smallest weight |
| RiskScoring.MonotoneIff | backend/app/correlation/risk_scoring.py:10-32 | In closed form, wherever some confidence is worth exactly the top points: adding alerts never lowers a score if and only if the range is narrow, that is, the least confidence worth the top points and the smallest confidence together are worth twice what the top points exceed the smallest weight by |
| RiskScoring.MonotoneIffUpToAHundred | backend/app/correlation/risk_scoring.py:10-32 | That covers every multiplier up to a hundred, and every multiplier when some alerts have no weight |
| RiskScoring.ScoreIsMonotone | backend/app/correlation/risk_scoring.py:10-51 | In a narrow range adding alerts lowers neither the score nor the severity |
| RiskScoring.DefaultsAreMonotoneIff | backend/app/correlation/risk_scoring.py:10-32 | With the default settings: if and only if the range, its top rounded down to a multiple of 0.05, is at most 0.50 wide |

## Left out

- AuthServices.AuthService.Register: whether the registration counter refuses is a parameter; the counter itself is not modelled.
- READ COMMITTED interleavings inside one call, crashes between a commit and a push, and lost HTTP responses: nothing is claimed there.
- Cryptography, password hashing and prehashing, cookie headers, CSRF, audit log rows.
- LoginLimiter.LoginRateLimiter.RecordFailure: both counters change at one instant; a failure between INCR and EXPIRE, which would leave a counter without expiry, is not modelled.
- The Redis form of the circuit breaker: its members are keyed by timestamp and its hour boundary differs.
- Dead-letter replay and cancellation of investigations: their find-then-remove is not atomic.
- RiskScoring.RiskScoringEngine.Score: averages and sums are exact; the rounding of binary floating point is not modelled.
- RiskScoring.OrderIndependent: for exact sums; the source adds floats, whose rounding can depend on the order.
- RiskScoring.MonotoneIff: weights, bonuses and the multiplier are not negative; above a multiplier of a hundred, where no confidence is worth exactly the top points, the exact condition is the finite check of `FewAlertsDecide`.
- ContextTrimming.EnforceSize: fits the budget when the reference list covers the context, which `AssembledIsCovered` shows of every context that is built; the sanitising of strings is a parameter.
- FeatureDataset.BuildDataset: the frame, its column order and the label columns are not modelled; lower-casing of a status is ASCII only.
- VersionGate.RealtimeProvider.HandleMessage: which queries an acted-on message invalidates, the socket's reconnects and React state are not modelled; versions are integers.
- FanOut.RealtimeManager.Take: the waiting of the sender on an empty queue is a precondition; the Redis listener and its reconnects are not modelled.
- ResponseActions.ResponseActionService.ExecuteAction: what the effect does (AWS calls, session revocation) is reduced to whether it succeeded; result, error text, audit row and publication are not modelled.
- InvestigationActors.InvestigationSystem.ProcessInvestigation: the workflow is reduced to its answer or its failure; checkpoints and status messages are not modelled.
- Routing, permissions, detection rules, policy, model training and inference, connectors and notifiers are not modelled.
