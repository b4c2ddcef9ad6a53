# Verified model of the session, event and fragment machinery

This project models the stateful core of the library in Dafny and proves what every step of it keeps and what
whole runs of it guarantee. `dafny verify dfyconfig.toml` checks all of it.

Code that updates objects in place is modelled as classes with the same fields (`Broker`, `Connection`,
`Manager`, `Scheduler`, `Planner`, `Exchange`, `ResponseWriter`, `Limiter`, `Validator`). Each method is proved
against a function on the value of those fields, and the theorems are about these functions: over all reachable
states, all runs and all map iteration orders. Ranging over a Go map is a loop that picks any element that is
left, so that nothing proved depends on Go's order. `FanIn`, `SessionInterleaving`, `CsrfInterleaving`, `RoleCache`
and `SessionRouting` take each critical section as a step of its own and hold for all schedules; methods and
`SessionRequests` describe calls that nothing interleaves with. So `EnsureSessionKnown` promises that the manager
knows the token when the handler ends; a concurrent rotation, refusal or logout can take the session away before
the next handler runs, and `KnownLaterIff` says exactly when it is known at a later moment.

| file | what it holds |
|---|---|
| `BrokerModel`, `BrokerRuns`, `Broker` | the publish/subscribe broker: indexes, bounded channels, identifiers |
| `EventStream`, `FanIn` | the event-stream wire format, its standard parser, and the goroutines that feed it |
| `SessionModel`, `SessionRequests`, `SessionManager` | the session caches, whole calls on them, and the mutable manager |
| `SessionInterleaving`, `CsrfChain`, `CsrfInterleaving`, `RoleCache` | the same caches under concurrency |
| `RequestCookies`, `SessionRouting` | request handlers, and the manager and the broker together |
| `FragmentModel`, `FragmentPlanner` | refresh plans: closure, pruning by dominance, order |
| `Routing`, `Publishing` | route lookup, and publishing a plan end to end |
| `RateLimiter`, `RetryClient` | trace bounds of the rate limiter; retries and backoff in 64-bit arithmetic |
| `TagParser`, `FieldErrors` | validation tags and the error list |
| `Wrappers`, `Events`, `Index`, `Sequences`, `Text`, `GoTime`, `Histories` | shared values, two-level indexes, sequences, strings, times, conditions over runs |

## What the code relies on

The broker's theorems hold for callers that keep to what the code assumes: session and user identifiers are not
empty (sse/broker.go:173, sse/broker.go:189), external connection identifiers are fresh, no session is listed under
two users, `UpdateUserID` is called with two different users (sse/broker.go:392 deletes the old key), and the
64-bit counter has not wrapped around. `BrokerRuns.Legal` states this per operation. A call that registers an
external identifier counts as complete after its compare-and-swap loop.

## Where the code and expectation part

- Rotation leaves the old session name in the user index. Delivery is not affected, because the session index is
  exact, but the name outlives its connections; `RotateExactIff` says exactly when, `RotatedNameStays` shows it.
- Pruning is not a function of the fragments: `OrderIrrelevantIff` gives the exact condition under which the
  unspecified order of map iteration cannot show, if no fragment dominates itself. Transitive dominance meets it.
- The wire printer writes data as one line. `RoundTripIff` shows that an event comes back if and only if it holds
  no line break, and no NUL in its id.
- The rate limiter allows up to `2 * limit - 1` calls within one window length (`FewerThanTwice`), and
  `BoundIsReached` gives such a run.
- Every failed exchange is classified as an unavailable dependency, because the transport's URL error is itself a
  network error; the two tests before that one make no difference to what is retried (`RetriedIff`).
- A large base delay wraps around to a tiny one (`LargeBaseWraps`); `DelayIsIdealIff` gives the exact condition.
- A negative `MaxRetries` makes no attempt and reports no error (`DoJSON`).
- A CSRF token issued while a validation is between copying and storing is overwritten by the older one
  (`IssueCanBeLost`). `IssueLastsIff` says exactly when an issued token lasts, and `CalmIff` exactly when accepted
  tokens remain the latest.
- A role invalidation can be undone by a resolution in flight (`InvalidationCanBeUndone`), and by nothing else
  (`InvalidationHoldsIff`).
- Tabs that share a session cookie: a rotation moves only the connection that its request names, and the others no
  longer receive what is published to the user's active sessions (`SiblingIsLeftBehind`, `SiblingReachedIff`).
- The connection that the request names is moved in a critical section of its own, after the manager rotated. In
  between, publishes to the active sessions miss it (`MissedBetweenLocks`). A handler that is late, because another
  request shared its validation and a further rotation came first, moves the connection back to a superseded token,
  which loses it to such publishes (`LateHandlerLoses`). `ReachedIff` says exactly when a connection is reached,
  `SupersededIff` when a superseded token routes to it, and `ReachedAtTwoMoments` what a publish reaches that read
  the active sessions earlier.
- `AllFragments` is documented as sorted by order; ties are broken by selector (app/fragments.go:229-234).
- The trailing slash of a path matters when both forms are keys, or when several keys match (`SameWithSlashIff`).

## Model

| member | source | states |
|---|---|---|
| BrokerRuns.DeliveryInEveryReachableState | sse/broker.go:295-372 | after any legal run of subscribing, rotating, re-associating, paging, offering, receiving and removing, the nested index loops reach exactly the connections a linear scan finds, for any users, active sessions and filter, and reach each along one path only; the user index separates each user's sessions |
| BrokerRuns.IndexedIsScanIff | sse/broker.go:299-325 | given an exact session index, indexed delivery equals the scan for all options if and only if the user index separates that user's live sessions from everyone else's |
| BrokerRuns.IndexedIsScan | sse/broker.go:349-371 | under the invariant, indexed delivery to any set of users is the scan |
| BrokerRuns.OneRoute | sse/broker.go:308-325 | a connection is reached under its own user and session only, so nothing is offered twice |
| BrokerRuns.StepKeepsInv | sse/broker.go:127-423 | every operation keeps: session index exact, user index covering, one owner per session, queues bounded, channels closed once |
| BrokerRuns.RunKeepsInv | sse/broker.go:127-423 | the invariant holds after every legal run |
| BrokerRuns.RegisterKeepsInv | sse/broker.go:137-147 | registering a fresh identifier keeps the invariant |
| BrokerRuns.RotateKeepsInv | sse/broker.go:158-197 | moving one connection to another session keeps the invariant |
| BrokerRuns.UpdateUserKeepsInv | sse/broker.go:376-394 | re-associating a user keeps the invariant, also when the new user exists already |
| BrokerRuns.RemoveKeepsInv | sse/broker.go:396-423 | removal keeps the invariant, whether or not other tabs share the session |
| BrokerRuns.LastOfSession | sse/broker.go:407-411 | a session with at most one listed connection has no other live connection, which is what the size test decides |
| BrokerRuns.RemoveKeepsOthersRoutable | sse/broker.go:407-421 | closing one connection takes it, and nothing else, out of what any publish reaches |
| BrokerRuns.RotateExactIff | sse/broker.go:172-194 | a rotation keeps the user index exact if and only if nothing changes or another connection still uses the old session |
| BrokerRuns.RotatedNameStays | sse/broker.go:187-194 | after rotating and removing a connection, the old session name is still listed for its user |
| BrokerRuns.RunKeepsExact | sse/broker.go:127-423 | in runs where no last connection of a session rotates away, the user index lists only sessions with live connections |
| BrokerRuns.StepExactIff | sse/broker.go:127-423 | an operation keeps the user index exact if and only if it is no rotation of a session's last connection |
| BrokerRuns.NothingLeftBehind | sse/broker.go:405-420 | in such runs all three maps are empty once all connections are removed |
| BrokerRuns.EachChannelClosedOnce | sse/broker.go:396-423 | live connections and closed channels together number the subscriptions; no channel is closed twice or while live |
| BrokerRuns.AllocationExceedsIff | sse/broker.go:103-105 | the next identifier exceeds all registered ones if and only if the 64-bit counter does not wrap, or nothing was registered |
| BrokerRuns.QueueConserved | sse/broker.go:158-423 | through every run that does not remove it, a connection's waiting and accepted events are those taken and those still waiting, in order; rotations, re-associations and page changes lose nothing |
| BrokerRuns.StepKeepsQueue | sse/broker.go:158-423 | an operation changes the queue of a surviving connection only by offering it an event, if there is room, or by receiving its oldest |
| BrokerRuns.StepKeepsOwner | sse/broker.go:158-197 | a connection's session changes by its rotation only, and its user by re-association of that user only |
| BrokerRuns.StepKeepsPage | sse/broker.go:200-231 | a connection's page context changes only by being set, for it or for its session, to what is given |
| BrokerRuns.NewConnection | sse/broker.go:127-153 | a new connection has the given session and user, no page context, and nothing waiting |
| BrokerRuns.OfferedExactly | sse/broker.go:295-326 | connection by connection: an event is added for an addressed user, an active session, a passing filter and room, and in no other case |
| BrokerRuns.OfferedAsOftenAsNamed | sse/broker.go:271-286 | publishing to a list offers the event to a connection as often as the list names it, up to its room |
| BrokerRuns.UpdateUserMovesDelivery | sse/broker.go:376-394 | after a re-association the new user is reached where either was before, the old one nowhere, and all others as before |
| BrokerModel.AmendCompose | sse/broker.go:239-244 | changing two disjoint groups of connections in turn is changing their union at once, which makes the loop order irrelevant |
| BrokerModel.InSessionsAll | sse/broker.go:308-325 | the sessions listed for a user hold exactly that user's connections |
| BrokerModel.AddressedAll | sse/broker.go:349-352 | ranging over the listed users misses no connection of a wanted user |
| Broker.Connection.Change | sse/broker.go:18-27 | one change to a live connection; an offer to a full channel is dropped |
| Broker.Broker.constructor | sse/broker.go:83-93 | an empty broker, with 32 for a non-positive buffer size |
| Broker.Broker.Register | sse/broker.go:127-153 | the three maps after registration, and the new connection |
| Broker.Broker.SubscribeWithIDs | sse/broker.go:103-106 | registers under the next counter value, which wraps at 64 bits |
| Broker.Broker.SubscribeWithConnectionID | sse/broker.go:112-125 | the compare-and-swap loop ends under concurrent increments, with the counter at least the identifier and never lowered |
| Broker.Broker.UpdateConnectionSessionID | sse/broker.go:158-197 | does a rotation to the maps and the connection, and reports whether the connection is known |
| Broker.Broker.UpdateUserID | sse/broker.go:376-394 | re-associates all connections of a user and merges the two index entries |
| Broker.Broker.UpdateConnectionPage | sse/broker.go:200-212 | sets one connection's page context |
| Broker.Broker.UpdateSessionPage | sse/broker.go:215-231 | sets the page context of the connections listed for a session |
| Broker.Broker.RemoveConnection | sse/broker.go:396-423 | removes, unlists and closes a known connection once; does nothing for an unknown one |
| Broker.Broker.Publish | sse/broker.go:235-245 | offers to every connection once |
| Broker.Broker.PublishToConnection | sse/broker.go:254-269 | offers to one connection and reports whether the event was queued |
| Broker.Broker.PublishToConnections | sse/broker.go:271-286 | offers along a list, repeating as the list repeats and skipping unknown identifiers |
| Broker.Broker.PublishToUserWithOptions | sse/broker.go:295-326 | the nested loops over sessions and connections have the effect of one scan of all connections: each addressed one is offered the event once |
| Broker.Broker.PublishToUsersWithOptions | sse/broker.go:333-372 | the same for a list of users with duplicates and unknown names |
| Broker.Broker.TakeFrom | sse/handler.go:123-126 | hands out the oldest queued event of a connection |
| EventStream.ResponseWriter.WriteEvent | sse/handler.go:215-228 | appends the fields of an event, with optional id, event and retry lines and one data line |
| EventStream.ResponseWriter.WritePing | sse/handler.go:186-190 | appends the heartbeat comment |
| EventStream.PrintedFields | sse/handler.go:215-228 | the printed text, field by field: id and type if not empty, a positive retry, the data, a blank line |
| EventStream.RoundTripIff | sse/handler.go:181-228 | the parser of sections 9.2.5 and 9.2.6 of the WHATWG HTML Living Standard dispatches exactly the printed events, ids sticky and empty types as `message`, if and only if no id, type or data holds a line break and no id a NUL |
| EventStream.RoundTrip | sse/handler.go:181-228 | for such events nothing is left in the parser's buffers, and its reconnection time is the last positive retry |
| EventStream.FeedClean | sse/handler.go:181-197 | the round trip from any idle parser state and before any further text |
| EventStream.FeedCleanEvent | sse/handler.go:215-228 | one clean event, printed, is one dispatched message |
| EventStream.FeedPing | sse/handler.go:186-190 | a heartbeat between events changes nothing in the parser |
| EventStream.DirtyIsLost | sse/handler.go:215-228 | a list with one unclean event never comes back, whatever surrounds it |
| EventStream.DirtyDataIsCut | sse/handler.go:226-226 | data with a line feed is dispatched shorter than it was |
| EventStream.FirstDispatchIsShort | sse/handler.go:226-226 | whatever field lines the rest of the data looks like, the message dispatched next is shorter than the text that was printed |
| FanIn.Conservation | sse/handler.go:117-135 | under every schedule, what a stream's queue accepted is what was written, is in the writer, in its goroutine's hand, or queued, in this order; queues stay bounded; outputs are an interleaving |
| FanIn.NextConserves | sse/handler.go:117-135 | each step keeps that equation for each stream |
| FanIn.NextKeepsInv | sse/handler.go:181-197 | the response body is always the printed outputs |
| FanIn.ClientSeesWhatWasWritten | sse/handler.go:181-228 | at any moment of any run, a client parsing the body sees exactly the events written, in order, if the accepted events are clean |
| FanIn.NeverStuck | sse/handler.go:117-135 | an event accepted and not yet written can always move on |
| FanIn.BeatPrintsPing | sse/handler.go:186-190 | a heartbeat prints the comment, and waits for the event being written only |
| FanIn.QueueIsTheBrokers | sse/broker.go:254-269 | the queue of a stream changes as the broker's bounded channel does |
| SessionModel.Normalized | authsession/manager.go:53-70 | all durations become positive, the cache lifetime never exceeds the session's, and a usable configuration is kept |
| SessionModel.RemoveKeepsInv | authsession/manager.go:524-537 | removing an entry keeps keys hashed and the user index exact |
| SessionModel.SetKeepsInv | authsession/manager.go:504-516 | replacing an entry, perhaps of another user, keeps them too |
| SessionModel.IndexIsDetermined | authsession/manager.go:504-537 | the index is exact if and only if it is the one computed from the cache, without empty sets |
| SessionModel.EvictKeepsInv | authsession/manager.go:489-502 | eviction keeps the index exact |
| SessionModel.EvictExactly | authsession/manager.go:489-502 | what is evicted is refused by every later cache check; what stays is unchanged and within expiry and idle limit |
| SessionModel.DueStaysRefused | authsession/manager.go:231-233 | an entry that is due is refused now and at any later time, with saturating time differences |
| SessionModel.TouchSlides | authsession/manager.go:238-243 | a hit slides the idle limit of that entry only, and neither its cache lifetime nor its expiry |
| SessionModel.HitIff | authsession/manager.go:231-233 | an entry answers before its expiry, within the idle limit and within the cache lifetime, and at no other time; saturation of durations never shows |
| SessionModel.TouchExactly | authsession/manager.go:238-242 | activity is recorded for that entry, if it is there and not expired, and for no other |
| SessionModel.SetThenCheck | authsession/manager.go:415-470 | a CSRF token that was set is compared until its lifetime is over and expired after that; other sessions are as before |
| SessionModel.CheckRefusals | authsession/manager.go:460-465 | an unknown session and a session without a token are refused differently |
| SessionModel.EvictRolesExactly | authsession/manager.go:497-501 | role entries go when they expire, and not before |
| SessionModel.AnonymousNeverHits | authsession/manager.go:164-175 | an anonymous entry never answers a cache check |
| SessionRequests.StoreKeepsInv | authsession/manager.go:260-285 | caching a positive answer, with rotation, keeps the index exact |
| SessionRequests.ValidateKeepsInv | authsession/manager.go:195-222 | so does every validation, cached, bypassing or failing |
| SessionRequests.EnsureKnownKeepsInv | authsession/manager.go:362-375 | so does making a token known |
| SessionRequests.ErrorChangesNothing | authsession/manager.go:366-369 | on a validator or role error no entry and no index set changes |
| SessionRequests.EnsureKnownKnows | authsession/manager.go:362-375 | after success the manager knows the token the request will carry |
| SessionRequests.RotationMovesIndex | authsession/manager.go:275-285 | after a rotation the new token is listed for the user and the old one for nobody |
| SessionRequests.UnknownFailsIff | authsession/manager.go:362-375 | making an unknown session known fails if and only if there is no token, the validator fails, or a user is confirmed whose roles are unavailable: the provider fails, no unexpired entry is cached, and the policy returns errors |
| SessionRequests.EnsureKnownAnswer | authsession/manager.go:362-375 | otherwise a known session is left alone, a confirmed one handed its new tokens, and any other replaced by a new anonymous one |
| SessionRequests.CachedAnswer | authsession/manager.go:195-222 | a cached entry answers without the validator, with its identity and roles and without new tokens |
| SessionRequests.ValidatorsAnswer | authsession/manager.go:246-287 | otherwise, or when the cache is bypassed, the answer is the validator's: an error, nobody and the entry removed, or the user with roles and tokens and the entry stored |
| SessionRequests.ResolveRolesExactly | authsession/manager.go:313-337 | an unexpired entry serves, an expired one never; the provider is asked only then, its answer kept for the role lifetime, and its failure changes nothing |
| SessionRequests.BuildUserExactly | authsession/manager.go:289-311 | unavailable roles are an error under one policy, and no roles under the other |
| SessionRequests.StoredAnswers | authsession/manager.go:260-285 | a confirmed session answers cache checks within the idle limit and the cache lifetime from the confirmation, under its new token if it was rotated |
| SessionRequests.AnonymousIsKept | authsession/manager.go:164-175 | an anonymous session has no CSRF token and is kept until its end or its idle limit |
| SessionManager.Manager.constructor | authsession/manager.go:139-156 | an empty, valid manager with the normalised configuration |
| SessionManager.Manager.RemoveIdentityLocked | authsession/manager.go:524-537 | removes an entry and its listing |
| SessionManager.Manager.SetIdentity | authsession/manager.go:504-516 | replaces an entry and lists a non-zero user's token |
| SessionManager.Manager.Touch | authsession/manager.go:238-242 | records activity if the entry is still there and not expired |
| SessionManager.Manager.CachedUser | authsession/manager.go:224-244 | the cache check with its role lookup and its activity update |
| SessionManager.Manager.ResolveRoles | authsession/manager.go:313-337 | roles from the cache, from the provider, or none |
| SessionManager.Manager.BuildUser | authsession/manager.go:289-311 | the role error policy decides between an error and a user without roles |
| SessionManager.Manager.Store | authsession/manager.go:260-285 | renews the entry with its CSRF token carried over, and moves it on rotation |
| SessionManager.Manager.ValidateAndCache | authsession/manager.go:246-287 | error, refusal and confirmation, with their cache effects |
| SessionManager.Manager.Validate | authsession/manager.go:195-222 | two cache checks and then the remote answer; the bypass skips both |
| SessionManager.Manager.EnsureKnown | authsession/manager.go:362-375 | known, confirmed, replaced by an anonymous session, or an error |
| SessionManager.Manager.CreateAnonymous | authsession/manager.go:164-175 | caches an anonymous entry with Go's zero time as its validation time |
| SessionManager.Manager.SetCsrfToken | authsession/manager.go:415-432 | sets a CSRF token exactly for a cached session |
| SessionManager.Manager.CheckCsrf | authsession/manager.go:453-470 | the three refusals and the comparison, in the source's order |
| SessionManager.Manager.Destroy | authsession/manager.go:409-413 | logs a session out; the empty token is ignored |
| SessionManager.Manager.EvictExpired | authsession/manager.go:489-502 | the delete-while-ranging loops leave exactly what is not due, in any order |
| SessionInterleaving.HitIsBacked | authsession/manager.go:195-287 | under every interleaving, a cache hit rests on a positive answer for that token or the one it was rotated from, with the same identity, requested less than the cache lifetime before |
| SessionInterleaving.RevokedStopsHitting | authsession/manager.go:224-287 | once no positive answer comes from some moment on, no check succeeds a cache lifetime later, even if a slow older validation writes last |
| SessionInterleaving.IndexAlwaysExact | authsession/manager.go:504-537 | at every release of the lock the user index is the one the cache determines |
| SessionInterleaving.NextKeepsInv | authsession/manager.go:195-537 | every critical section keeps index, provenance of entries and CSRF lineage |
| SessionInterleaving.RunKeepsInv | authsession/manager.go:195-537 | so does every run, with any number of validations in flight |
| SessionInterleaving.AcceptedWasIssued | authsession/manager.go:453-470 | under every interleaving, an accepted CSRF value was issued for that session or an ancestor in its rotation chain, at most its lifetime earlier |
| SessionInterleaving.OnChainWasIssued | authsession/manager.go:415-432 | what a rotation chain holds was issued, with that value at that time |
| SessionInterleaving.KnownLaterIff | authsession/manager.go:351-356 | a session is known at the end of an interleaved run if and only if it was known or was written, and every refusal, rotation away from it, logout or eviction was followed by a step that wrote it again |
| SessionInterleaving.OwnsIff | authsession/manager.go:504-537 | which tokens a critical section lists for a user, and which it unlists |
| SessionInterleaving.UndisturbedIsStore | authsession/manager.go:246-287 | the critical sections of a positive validation, when nothing interleaves, do what `Store` says |
| CsrfInterleaving.IssueCanBeLost | authsession/manager.go:260-275 | an eight-step run from the start in which a token issued between copying and storing is overwritten: the older value is accepted and the newer one refused |
| CsrfInterleaving.IssueLastsIff | authsession/manager.go:260-285 | an issued token stays in its entry through every run that leaves the entry alone, if and only if no validation has copied an older token and has yet to write it there, by renewal or by rotation |
| CsrfInterleaving.AcceptedIsLatest | authsession/manager.go:246-470 | in every interleaved run whose steps make no copied token outdated, an accepted value is the latest set on the session's rotation chain, and within its lifetime |
| CsrfInterleaving.CalmIff | authsession/manager.go:260-285 | that condition is exact: after a step all cached tokens stay the latest of their chains, whatever calm steps and one last step follow, if and only if the step makes no copied token outdated |
| CsrfInterleaving.CalmKeepsLatest | authsession/manager.go:260-285 | a calm step keeps every cached token and every copied one the latest of its chain |
| CsrfChain.AcceptedIsLatest | authsession/manager.go:415-470 | with undisturbed operations and distinct random values, an accepted value is the latest set on the session's rotation chain, is within its lifetime, and is accepted for that one session only |
| CsrfChain.NextKeepsInv | authsession/manager.go:260-285 | each operation keeps every cached CSRF token the latest of its chain, and unshared |
| CsrfChain.ConfirmCsrf | authsession/manager.go:260-285 | a confirmation keeps the CSRF token, and a rotation moves it to the new entry |
| CsrfChain.LatestWasSet | authsession/manager.go:415-432 | the latest value of a chain was set |
| RoleCache.RoleHitIsBacked | authsession/manager.go:313-337 | cached roles were supplied for that user, on a request less than the role lifetime old, whatever interleaves |
| RoleCache.NextKeepsInv | authsession/manager.go:313-337 | every step of concurrent role resolutions keeps that provenance |
| RoleCache.UndisturbedIsResolve | authsession/manager.go:313-337 | when nothing interleaves, the steps of a resolution store what `ResolveRoles` says |
| RoleCache.InvalidationCanBeUndone | authsession/manager.go:377-387 | a run from the start in which roles are invalidated while a resolution is in flight, and the older answer is cached afterwards |
| RoleCache.InvalidationHoldsIff | authsession/manager.go:313-387 | after an invalidation, in every run, the user's cached roles come from a request asked later, if and only if no resolution for the user was asked and unfinished at that moment |
| RequestCookies.ReplacedExactly | authsession/http.go:210-227 | exactly one cookie of the name is left, with the new value; all others keep value and order |
| RequestCookies.RewrittenExactly | authsession/http.go:148-163 | a rotation leaves one session cookie with the new token, one refresh cookie if it is new, and all others as they were |
| RequestCookies.NothingWithoutSession | authsession/http.go:149-151 | without a new session nothing is rewritten or set |
| RequestCookies.IssuedExactly | authsession/http.go:157-162 | the response sets the new session cookie, and the refresh cookie if and only if there is a new refresh token |
| RequestCookies.ReroutedOnlyNamed | authsession/http.go:152-156 | the broker update moves the named connection and leaves all others, and everything without a connection or a new session, alone |
| RequestCookies.RequestTokensExactly | authsession/http.go:186-196 | a request has tokens if and only if its first session cookie has a value |
| RequestCookies.Exchange.ReplaceCookie | authsession/http.go:210-227 | the flagged pass computes that replacement |
| RequestCookies.Exchange.SetCookies | authsession/http.go:157-162 | rewrites the request and sets the response cookies |
| RequestCookies.SetRotatedSessionCookies | authsession/http.go:148-163 | rewrites cookies and moves the connection named by the request |
| RequestCookies.EnsureSessionKnown | authsession/http.go:126-146 | an undisturbed call goes on only if the manager knows the token the request then carries; otherwise caches, cookies and routing are unchanged; when the validator fails for an unknown session, the request is refused with its cookies unchanged |
| RequestCookies.RequireAuth | authsession/http.go:62-87 | an undisturbed call goes on, redirects or refuses as the validation says, and hands new tokens on only when it goes on |
| RequestCookies.ValidatedUserIsKnown | authsession/manager.go:195-222 | a validated user comes from this call's answer, or from a fresh entry when the cache may be used |
| SessionRouting.ReachedIff | authsession/http.go:148-163 | at every later moment of any run of the manager's critical sections, handlers' moves and broker operations, a publish restricted to the user's active sessions reaches a connection if and only if it was linked or some step linked it (listing its session, or moving it to an active one), and every step that stranded it (ending its session, or moving it to an inactive one) was followed by one that linked it again |
| SessionRouting.RotatedConnectionReachedIff | authsession/http.go:152-156 | once a rotation has listed its new token and its handler moves the connection: the connection is linked then if and only if the new token did not stop being active in between or became active again; afterwards it is reached under the condition of `ReachedIff` |
| SessionRouting.FollowedIff | authsession/http.go:152-156 | a handler's move links the connection if and only if the token it moves to is active then |
| SessionRouting.ActiveIff | authsession/manager.go:504-537 | a token is active at a later moment if and only if it was or became so, and whatever removed or replaced its entry was followed by a step that listed it again |
| SessionRouting.SupersededIff | sse/broker.go:167-185 | a token that the connection left behind routes to it if and only if a handler moved it back to such a token and none moved it on since |
| SessionRouting.ReachedAtTwoMoments | app/publish.go:280-281 | the active sessions are read before the publish takes the broker's lock: the connection is reached if and only if its session at the later moment was active at the earlier one; without a handler's move in between, if and only if it was linked when they were read |
| SessionRouting.MissedBetweenLocks | authsession/manager.go:275-285 | from every linked state: between the manager's rotation and the handler's move, publishes miss the connection that the request names |
| SessionRouting.LateHandlerLoses | authsession/http.go:152-156 | two handlers share a rotation and one is late, after a further rotation: the connection is lost to publishes and a superseded token routes to it |
| SessionRouting.SchedulesFromTheStart | authsession/http.go:148-163 | both schedules occur in runs from an empty manager and a fresh connection |
| SessionRouting.NamedIsReached | authsession/http.go:152-156 | after an undisturbed rotation the connection that the request names is reached, and the old token is not active |
| SessionRouting.SiblingReachedIff | authsession/http.go:152-156 | another connection of the user that was reached before an undisturbed rotation is reached afterwards if and only if its session is not the rotated token |
| SessionRouting.SiblingIsLeftBehind | authsession/manager.go:275-285 | two tabs with one session cookie: the first one's rotation leaves the second unreached |
| SessionRouting.NextLinkedIff | authsession/manager.go:339-349 | after any step the connection is linked if and only if the step links it, or it was linked and is not stranded |
| FragmentPlanner.Scheduler.Visit | app/fragments.go:177-190 | depth-first search ends on cycles; it schedules only what is reachable, and with it all its dependencies |
| FragmentPlanner.Scheduler.ScheduleAll | app/fragments.go:193-195 | what is scheduled is exactly what the registered roots reach through registered fragments |
| FragmentPlanner.Scheduler.Prune | app/fragments.go:197-205 | deleting while ranging is pruning along some order of all entries |
| FragmentPlanner.Planner.Plan | app/fragments.go:171-220 | the plan is a sort of what some pruning order leaves of the closure |
| FragmentPlanner.Planner.AllFragments | app/fragments.go:223-236 | all fragments of the route, each once, sorted |
| FragmentPlanner.Planner.Listed | app/fragments.go:207-219 | collecting a set in any order and sorting it gives a sorted list of its members, each once |
| FragmentModel.ClosureIsLeast | app/fragments.go:177-195 | a set closed under invalidation that holds the roots and only reachable fragments is the closure |
| FragmentModel.ClosureIsClosed | app/fragments.go:177-195 | the closure holds the registered roots, and with each fragment the registered ones it invalidates |
| FragmentModel.PoliciesNested | app/fragments.go:262-271 | the closures of the three refresh policies are those of page content, of it and the navbar, and of these and the float selection, and they are nested |
| FragmentModel.ClosureMonotone | app/fragments.go:193-195 | more roots reach at least as much |
| FragmentModel.NoKeptDominated | app/fragments.go:197-205 | for every order, no kept fragment is dominated by a kept one |
| FragmentModel.SurvivorDeletes | app/fragments.go:202-204 | what an entry that stays dominates is gone at the end |
| FragmentModel.DroppedHasKeptDominator | app/fragments.go:197-205 | without self-domination, every dropped fragment is reached by a chain of dominance from a kept one, for every order |
| FragmentModel.OrderIrrelevantIff | app/fragments.go:197-205 | without self-domination, pruning is independent of the order if and only if every dominated fragment is dominated directly by an undominated one; what is kept is then the undominated ones |
| FragmentModel.CoveredGivesUndominated | app/fragments.go:197-205 | under that condition every order keeps exactly the undominated fragments |
| FragmentModel.TransitiveIsCovered | app/fragments.go:197-205 | transitive dominance without self-domination meets the condition |
| FragmentModel.SortIsUnique | app/fragments.go:212-217 | with distinct keys of order and selector a set has one sorted list |
| FragmentModel.SortIsSort | app/fragments.go:212-217 | sorting lists every member once, in order |
| FragmentModel.ListingAscends | app/fragments.go:223-236 | the list of all fragments ascends by order, and by selector among equal orders |
| FragmentModel.PlanAscends | app/fragments.go:207-219 | so does every plan |
| Text.LessIff | app/fragments.go:213-216 | one selector is before another if it ends, or has the lesser character, where they first differ |
| FragmentModel.OnePlanIff | app/fragments.go:171-220 | with distinct keys and no self-domination on the closure, the plan is a function of the set of roots if and only if that condition holds there |
| FragmentModel.OneOutcomeIff | app/fragments.go:197-205 | self-dominating fragments or not, pruning is independent of the order if and only if every order keeps exactly the undominated fragments |
| FragmentModel.UnrivalledCoverGivesUndominated | app/fragments.go:197-205 | that is so if every dominated fragment is dominated by one that no other fragment dominates |
| FragmentModel.FirstRivalStays | app/fragments.go:197-205 | of two fragments that dominate each other, the one visited first stays |
| FragmentModel.NothingToPlan | app/fragments.go:172-175 | without roots or registered fragments the empty plan is the only one |
| Routing.MatchIsSubstitution | app/routing.go:80-109 | the dynamic pass matches a key if and only if the trimmed path is the key with each placeholder left as is or replaced by a decimal that fits 64 bits |
| Routing.PlaceholderStandsFor | app/routing.go:95-101 | a placeholder stands for itself, and for exactly the decimals, signed or not and with leading zeros or not, that fit 64 bits |
| Routing.LiteralStandsForItself | app/routing.go:91-93 | any other segment stands for itself only |
| Text.ParseInt64Iff | app/routing.go:96-96 | which texts parse as 64-bit integers, and to what |
| Routing.SlashNeverMatters | app/routing.go:80-83 | the second slash candidate never changes what matches dynamically |
| Routing.SameWithSlashIff | app/routing.go:55-112 | a path without a final slash and the same path with one resolve alike if and only if they are not both keys and, when neither is, at most one key matches |
| Routing.MatchesKey | app/routing.go:86-104 | the segment loop decides substitution |
| Routing.MatchDynamic | app/routing.go:83-108 | one pass returns a matching key if and only if there is one |
| Routing.MatchRoute | app/routing.go:55-112 | exact key, then toggled slash, then a dynamic match, then nothing, for the path of the parsed URL or else the text itself |
| Routing.LookupOrder | app/routing.go:60-109 | the path itself wins, then the path with its last slash toggled, then any key that it is an instance of; nothing is found if and only if there is none of these |
| Publishing.FragmentsForPage | app/publish.go:101-121 | the loops collect the selectors and identifiers of the matched route, or the default selector without a route or a planner, and those of the global fragments |
| Publishing.PublishFragment | app/publish.go:398-453 | one fragment is offered through the indexes to the active, filtered connections of the user, or nothing happens |
| Publishing.PublishPlan | app/publish.go:341-361 | fragments are published in order until the first that fails |
| Publishing.PublishFragmentScope | app/publish.go:329-362 | with a planner, publishes a plan of the matched route; it reports success if and only if every planned fragment was published |
| Publishing.EventList | app/publish.go:398-453 | the events of a plan are those of its longest prefix that renders within the size limit |
| Publishing.ListDelivery | app/publish.go:259-289 | a connection that is targeted by each fragment, and whose page shows them, receives their events in order, until its channel is full |
| Publishing.OthersGetNothing | app/publish.go:281-287 | connections of other users, or of sessions inactive at every fragment, are unchanged |
| Publishing.DeliveredExactly | app/publish.go:281-287 | connection by connection, for one fragment: the event is added for the user, an active session, a page that is unknown or shows the selector, and room, and in no other case |
| Publishing.OtherPagesGetNothing | app/publish.go:281-287 | a connection whose page shows none of the selectors receives nothing |
| Publishing.EventForExactly | app/publish.go:398-453 | which fragments have an event, by kind, rendering, size and user, and what the event carries |
| Publishing.PageShowsExactly | app/publish.go:101-121 | the selectors and identifiers of a page, one by one |
| Publishing.PlannedIsShown | app/publish.go:281-287 | every planned fragment passes the page filter of a page set up for the same path |
| Publishing.PageReceivesThePlan | app/publish.go:323-362 | a connection of the user whose page context is of the same path, or unknown, receives the plan in order, until its channel is full: all of it on success, otherwise the part before the failure |
| Publishing.PageLasts | sse/broker.go:200-231 | a page context lasts through every run of operations that does not set it again or remove the connection |
| Publishing.SetUpPageReceivesThePlan | sse/handler.go:149-157 | once a page is set up, and through any run of broker operations that leaves it, the plans published for the same path arrive |
| Publishing.InterleavedDelivery | app/publish.go:341-361 | with any broker operations that leave the page before each fragment, the connection is offered the plan's events one by one in plan order, each as its queue and session are then |
| Publishing.SetUpShowsPage | sse/handler.go:149-157 | setting one connection's page context keeps the invariant and takes effect on that connection |
| RateLimiter.Limiter.Allow | serverutil/rate_limiter.go:37-55 | the answer and the new window or count |
| RateLimiter.Limiter.Cleanup | serverutil/rate_limiter.go:63-70 | the sweep leaves exactly the entries that began no earlier than one window ago |
| RateLimiter.FewerThanTwice | serverutil/rate_limiter.go:37-55 | in any interval no longer than the window, at most 2*max(1,limit)-1 calls of a key are allowed, over every run with a monotone clock |
| RateLimiter.BoundIsReached | serverutil/rate_limiter.go:44-54 | for every positive limit and every window there is a run that reaches this bound |
| RateLimiter.RefusalIsEarned | serverutil/rate_limiter.go:49-51 | a refusal means that max(1,limit) calls were allowed in the current window |
| RateLimiter.CountIsAllowed | serverutil/rate_limiter.go:44-54 | an entry's count is the number of calls allowed since its window began |
| RateLimiter.CleanupNeverShows | serverutil/rate_limiter.go:57-75 | sweeps anywhere in a run never change an answer |
| RateLimiter.AdmitExactly | serverutil/rate_limiter.go:41-54 | a call is refused if and only if its key's window is current and its count has reached the limit; what it changes |
| RateLimiter.SweepExactly | serverutil/rate_limiter.go:64-69 | a sweep forgets the windows that began more than one window ago, and no others |
| RetryClient.RetriedIff | serverutil/internalapi/client.go:196-245 | an attempt is retried if and only if the verb is GET, PUT or DELETE and there was no response, a 503 or 504, or a body cut off by a timeout |
| RetryClient.OutcomeExactly | serverutil/internalapi/client.go:196-228 | which statuses are recognised as unavailable, conflict and not found, and that the response or cause is kept |
| RetryClient.DelayIsIdealIff | serverutil/internalapi/client.go:247-254 | the wrapped 64-bit product, clamped, is min(base*2^n, max) for every n if and only if no overflowing shift leaves low bits between zero and the maximum |
| RetryClient.SmallProductIsSafe | serverutil/internalapi/client.go:247-254 | that holds whenever base*max is below 2^63 |
| RetryClient.LargeBaseWraps | serverutil/internalapi/client.go:251-254 | a base delay for which the third delay is 4 ns instead of 2 s |
| RetryClient.JitterBounds | serverutil/internalapi/client.go:255-259 | the wait lies strictly between half and one and a half times the delay |
| RetryClient.JitterReaches | serverutil/internalapi/client.go:255-259 | every wait that differs from the delay by less than its half, either way, occurs |
| RetryClient.Backoff | serverutil/internalapi/client.go:247-260 | the wait lies strictly between half and one and a half times the wrapped and clamped delay, and of the delay that is meant if the delays are safe |
| RetryClient.DoJSON | serverutil/internalapi/client.go:172-194 | at most MaxRetries+1 attempts, and at most one for other verbs than GET, PUT and DELETE; the result is the first outcome that is a success, not retryable, or the last allowed; the sleep lies between half and one and a half times the summed delays, which are the ideal ones if the delays are safe |
| TagParser.ParseTag | validator/validator.go:53-68 | the loop with its shared index computes the parse of the tag and ends |
| TagParser.ParseOne | validator/validator.go:56-68 | one rule takes in the following colonless pieces and advances the index past them |
| TagParser.PrintUndoesParse | validator/validator.go:53-68 | printing the parsed rules gives back every tag exactly |
| TagParser.ParseUndoesPrintIff | validator/validator.go:53-68 | a rule list survives printing and parsing if and only if it is not empty, no bare rule follows a parameterised one, keys are plain, and no later comma piece of a parameter holds a colon |
| TagParser.ParseIsCanonical | validator/validator.go:58-68 | whatever the parser returns is such a list |
| TagParser.ParseFlat | validator/validator.go:58-68 | the pieces of such a list parse back to it |
| FieldErrors.Validator.AddError | validator/validator.go:156-171 | updates the first entry of the field or appends one |
| FieldErrors.AddedOne | validator/validator.go:156-171 | one report sets one condition of one field and nothing else, and adds the field at the end if it is new |
| FieldErrors.ListSaysWhatWasReported | validator/validator.go:156-171 | after any reports, each field is listed once in order of first report, and each condition holds its last message |

## Left out

- HTTP transport, headers, logging, locale lookup, JSON, templates and the generated views: input and output with nothing to prove; a renderer is a function that gives text or fails, a payload encoding is any function.
- Hashing, random tokens and constant-time comparison: the hash is any function, new tokens are parameters, and distinctness is assumed only where a lemma says so.
- The clients of the authentication and user services, and notifications: thin wrappers over the retrying client, or an interface whose store is not part of this model.
- Sharing of in-flight validations: the caches see any number of concurrent validations of one token, and handlers may move a connection to any token at any time and any number of times, so requests that share an answer are among the runs.
- Parsing of URLs: its result is a parameter of route lookup.
- Building the planner's registry, `FindBySelector`, toasts, modal toasts, publishing a single path or to one fragment's viewers, `EnsureSessionCookie`, `SetUserFromSession`, `GetCsrfToken` and the single validation checks: they would only add easy members.
- Handlers without a connection broker: a request without a connection header has the same effect.
- Replacing the role provider and refreshing roles: combinations of the modelled invalidation and resolution steps.
- Cancellation of a request, closing of channels in the middle of a stream, and write errors: the stream model covers the time while the request lives.
- The window between registering an external identifier and raising the counter: no freshness is claimed inside it.
- Encoding of characters: the event stream is modelled as the characters that the standard's parser receives after decoding, and the size of a fragment as its number of characters.
- Cookie syntax: cookie values are taken as they are, without quoting or removal of invalid bytes.
- `sort.Slice`: modelled by an insertion sort of which only the sorted order and the members are used; Go's sort may order equal keys differently, and no theorem says otherwise.
- Pointers to cache entries and fragment specifications: these are values in maps, so that sharing of one entry between keys is not captured; the source replaces or copies what it shares.
- Publishing.PublishFragmentScope: requires a planner; the fallback that publishes one route's content and its layout components without one is not modelled. The method publishes undisturbed; `InterleavedDelivery` covers broker operations between two fragments, for connections whose page they leave.
- SessionInterleaving.HitIsBacked: assumes that the time of the check is not before 1970, since anonymous entries carry Go's zero time as their validation time.
- SessionInterleaving.RevokedStopsHitting: makes the same assumption.
- SessionManager.Manager.constructor: assumes durations that fit 64 bits, which Go's type guarantees.
- SessionModel.EvictExactly: an entry exactly at its idle limit is refused but not yet evicted, as in the source.
- RetryClient.DoJSON: requires delays of at least 2 ns when retries are enabled; shorter ones make the random number generator fail.
- FragmentModel.OnePlanIff: requires that no fragment of the closure dominates itself; with self-domination `OneOutcomeIff` refers to all orders, and `UnrivalledCoverGivesUndominated` is sufficient only.
- SessionRouting.ReachedIff: follows one connection that stays open and stays the user's; a handler moves it only to tokens that the broker lists for no other user.
- RateLimiter.FewerThanTwice: assumes a monotone clock and a positive window whose double fits 64 bits, as the ticker does.
