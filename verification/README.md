# Token refresh-and-replay coordinator and auth store

A Dafny model of the authenticated HTTP client of a browser front end. The
client attaches `Authorization: Bearer <token>` to every call. When a call fails
because the access token expired, a single refresh is started, the other calls
that fail meanwhile wait in a queue, and all of them are replayed (or all
rejected) when the refresh ends. The model also covers the `auth` slice of the
redux store, which keeps the token and the signed-in user's profile.

JavaScript runs the response interceptor on one thread. So each interceptor
call and each completion of the refresh call is modelled as one atomic step of
a deterministic state machine:

- `RefreshCoordinator.Step(system, event)` returns the next state and the
  sequence of actions the code performs, in the code's order. The actions are
  `StartRefresh`, `Enqueue`, `StoreToken`, `Reissue`, `Reject` and `Deliver`.
- The state holds the shared `isRefreshing` flag and `failedRequests` queue. It
  also holds the suspended handler that started the refresh (its request and
  the token its client captured), and the auth store.
- `Run` folds a sequence of events. The lemmas over it state single flight and
  FIFO replay.

Modules: `Wrappers` (Option), `Http` (request config, headers, the
token-expiry predicate, the request interceptor), `AuthSlice` (the reducers),
`RefreshCoordinator` (the protocol), `ReplayHeader` (the header a replay is
actually sent with; see Findings).

The model keeps the code's own order and marking, which differ from a natural reading of the protocol:

- Queued requests are re-issued first, and the request that triggered the
  refresh is re-issued last.
- Only the triggering request gets the `_retry` mark.
- The flag is cleared in the same step that issues the replays.
- Replays go through the request interceptor of the client whose handler ran
  the refresh, not the client of each queued request.

## Model

| member | source | states |
|---|---|---|
| AuthSlice.SetToken | src/redux/slices/authSlice.ts:18-20 | the token becomes the payload, the profile is kept, and the user is signed in exactly when the payload is non-empty |
| AuthSlice.SetSessionUser | src/redux/slices/authSlice.ts:21-23 | the profile becomes the payload; the token and the signed-in status are kept |
| AuthSlice.ClearAuth | src/redux/slices/authSlice.ts:24-27 | every state is mapped to the initial state, which is signed out |
| AuthSlice.InitialIsSignedOut | src/redux/slices/authSlice.ts:9-12 | the store starts with token "" and an empty profile, so the route guard treats it as signed out |
| AuthSlice.Reduce | src/redux/slices/authSlice.ts:17-28 | each action writes only its own field(s); an action of another slice leaves the state unchanged |
| AuthSlice.ReduceAllToken | src/redux/slices/authSlice.ts:17-28 | after any run of actions the token is the payload of the last token-writing action ("" for clearAuth), or the starting token if no action wrote it |
| AuthSlice.ReduceAllKeepsProfile | src/redux/slices/authSlice.ts:18-20 | a run of setToken (and unrelated) actions never changes the profile |
| AuthSlice.ClearAuthIdempotent | src/redux/slices/authSlice.ts:24-27 | clearAuth applied twice equals clearAuth applied once |
| AuthSlice.SetTokenIdempotent | src/redux/slices/authSlice.ts:18-20 | setToken(t) applied twice equals setToken(t) applied once |
| AuthSlice.SetTokenOverwrites | src/redux/slices/authSlice.ts:18-20 | a later setToken wins over an earlier one |
| AuthSlice.SetTokenSetSessionUserCommute | src/redux/slices/authSlice.ts:18-23 | setToken and setSessionUser write disjoint fields, so they commute |
| Http.IsAuthError | src/api/api-client.ts:37-40 | a failure is token expiry exactly when status is 403, a body is present, and its message is "You are not authorized to perform this action" |
| Http.ShouldRefresh | src/api/api-client.ts:42-47 | the refresh branch is entered only for token expiry on an existing request that is not marked retried and is not "/auth/refresh-token" |
| Http.Attach | src/api/api-client.ts:23-28 | a non-empty captured token sets Authorization to "Bearer <token>" and nothing else; an empty one leaves the request exactly unchanged |
| Http.SetBearer | src/api/api-client.ts:58-62 | Authorization becomes "Bearer <new token>", and the header object is created if absent; every other header, the url and the retry mark are kept |
| Http.MarkRetry | src/api/api-client.ts:50 | the request is marked retried, with url and headers untouched |
| RefreshCoordinator.ReplayQueue | src/api/api-client.ts:64-71 | one re-issue per queued entry, in queue order, each with the new bearer header, sent through the triggering client |
| RefreshCoordinator.RejectQueue | src/api/api-client.ts:76-78 | one rejection per queued entry, in queue order, all with the same reason |
| RefreshCoordinator.Step | src/api/api-client.ts:30-99 | every step preserves the coordinator invariant (flag set exactly while a handler is suspended on the refresh, empty queue when idle, trigger marked retried, queued requests unmarked); no step starts a refresh while one is in flight |
| RefreshCoordinator.SuccessPassesThrough | src/api/api-client.ts:31-33 | a successful response is delivered unchanged and the state does not move |
| RefreshCoordinator.BypassRejectsUnchanged | src/api/api-client.ts:97 | an ineligible failure is rejected with the original error itself, and the state (flag, queue, store) is untouched |
| RefreshCoordinator.BypassCases | src/api/api-client.ts:42-47 | non-expiry failures, retried requests, requests without a config, and refresh-endpoint requests all take the pass-through path |
| RefreshCoordinator.IdleExpiryStartsRefresh | src/api/api-client.ts:48-53 | from idle, an expiry failure sets the flag, marks that request retried, emits exactly one StartRefresh, and settles no caller |
| RefreshCoordinator.RefreshingExpiryEnqueues | src/api/api-client.ts:85-93 | while refreshing, an expiry failure starts no refresh, appends one unmarked entry at the back of the queue, and leaves the caller pending |
| RefreshCoordinator.RefreshSuccessReplays | src/api/api-client.ts:54-74 | on success the token is stored first, then each queued request is re-issued in queue order, then the trigger; all carry "Bearer <new>"; nothing is rejected; state returns to idle |
| RefreshCoordinator.RefreshFailureRejectsAll | src/api/api-client.ts:75-81 | on failure every queued request, then the trigger, is rejected with the refresh error; nothing is re-issued; the store is untouched; state returns to idle |
| RefreshCoordinator.CompletionSettlesEachOnce | src/api/api-client.ts:64-84 | either way the refresh ends, the settled callers are exactly the queued callers in order followed by the trigger, each once, and the queue is empty with the flag cleared |
| RefreshCoordinator.ReplayedRetryMarks | src/api/api-client.ts:45-92 | the re-issued trigger carries the retry mark, so it can never refresh again; a re-issued queued request does not carry it, so it starts a new refresh if it expires again |
| RefreshCoordinator.StepSingleFlight | src/api/api-client.ts:48-84 | a single step starts a refresh only by raising the flag, and lowers the flag only on a refresh completion |
| RefreshCoordinator.RunSingleFlight | src/api/api-client.ts:6-84 | over any run of events, refreshes started plus the one in flight at the start never exceed refreshes completed plus the one in flight at the end, and the invariant holds throughout |
| RefreshCoordinator.RunWhileRefreshing | src/api/api-client.ts:85-93 | while a refresh runs, N expiry failures start nothing and settle nobody; the queue grows by one entry per failure, in arrival order; the flag, trigger and store are unchanged |
| RefreshCoordinator.EpisodeReplayOrder | src/api/api-client.ts:48-74 | N >= 1 expiry failures from idle start exactly one refresh; on success the later callers are settled in arrival order and the first caller last |
| ReplayHeader.DispatchedAuthorization | src/api/api-client.ts:23-28 | the header a replay is sent with after the dispatching client's interceptor runs: the captured token when it is non-empty, otherwise the header the coordinator wrote |
| ReplayHeader.ReplayHeaderAsWritten | src/api/api-client.ts:64-74 | as written, every replay after a successful refresh is sent with the triggering client's captured token when it is non-empty, and with the new token only when it is empty |
| ReplayHeader.StaleReplayWitness | src/api/api-client.ts:58-74 | concrete case: client token "old", refresh returns "new"; the store holds "new" and the coordinator wrote "Bearer new", but the replay is sent with "Bearer old" |
| ReplayHeader.AttachLive | src/api/api-client.ts:23-28 | corrected interceptor: attaches the token the store holds at dispatch time; an empty store token leaves the request unchanged |
| ReplayHeader.ReplayHeaderCorrected | src/api/api-client.ts:54-74 | with the corrected interceptor, every replay after a successful refresh is sent with "Bearer <new token>", whatever token the client captured |

## Left out

- Chat session controller (upload, indexing, analyze vs. follow-up routing, pending placeholders, reset): the source has no such state machine. The chat form only simulates a reply with a timer and a log line.
- Network transport: axios internals, promise scheduling, the HTTP refresh call (src/api/auth-api.ts:31-34) and the replayed calls' own outcomes. The refresh outcome arrives as a `RefreshOk`/`RefreshErr` event, and a replay is an emitted `Reissue` action. The promise a replay resolves its caller with is not followed further.
- Refresh response shape: the code reads `.data` from the refresh response. The model takes the new token as an opaque string.
- Errors thrown synchronously by `store.dispatch` or by dispatching a replay inside the `try` block: these are not modelled. They would route a successful refresh into the rejection path.
- JavaScript truthiness of `response.data`: a falsy body (missing, null, empty string, 0) is modelled as an absent body. A body without a string `message` is modelled as a body whose message is None.
- The `console.log` of the token and the base URL of each client: these have no effect on the protocol.
- Each call of `apiClientWithAuth` creates a new client but shares the module-level flag and queue. The model keeps one shared coordinator state. Each failure event carries the token captured by its own client.
- A refresh completion that arrives with no suspended handler cannot happen in the code. The model treats it as a step that does nothing.
- Persistence of the auth slice (redux-persist) and the route guard are left out. The guard's only rule, "signed in when the token is non-empty", appears as `AuthSlice.SignedIn`.
- React-Query hooks, per-endpoint API functions, forms, pages, print/report and markdown rendering: these are UI or I/O wrappers.

## Findings

| source | as written | input that shows it | evidently intended | confidence | as-written member | corrected member |
|---|---|---|---|---|---|---|
| src/api/api-client.ts:23-28 | Replays are sent with `client(config)`, so they pass the request interceptor again. When the token captured at client creation is non-empty, the interceptor overwrites the fresh "Bearer <new>" header with that captured, expired token. | client created with token "old"; the refresh returns "new"; the triggering request is replayed with "Bearer old" | replays carry the refreshed token, e.g. an interceptor that reads the live store token | medium (not executed) | ReplayHeader.ReplayHeaderAsWritten, ReplayHeader.StaleReplayWitness | ReplayHeader.AttachLive, ReplayHeader.ReplayHeaderCorrected |
