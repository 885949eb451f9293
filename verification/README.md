# Trust-store, verified

Trust-store decides whether an application may use a service. A request carries the user, the
process, the application id and the feature. The daemon looks up what the user answered before,
prompts only on a miss, and remembers the answer. Requests travel between processes over Unix
sockets and over D-Bus. This project models that decision and the machinery under it, and proves
what the parts guarantee together.

| module | models |
|---|---|
| `TrustTypes` | answers, requests, fixed-width integers, C strings |
| `Runs` | runs, traces and reachability of any step system |
| `Decimals` | printed counters |
| `SqliteStore` | the SQLite table, its prepared statements and the query cursor |
| `CachedAgent` | "newest stored answer, else prompt and remember", as agent and as free function |
| `InterleavedCache` | the same with calls that overlap |
| `AppIdFormatting` | the regular expression that drops the version from an application id |
| `AgentChain` | formatting, white-listing and caching in a row |
| `SocketProtocol` | stub, session registry, skeletons and process table as one step system |
| `SocketProgress` | when sends return in that system, shared sessions, socket errors |
| `SocketChain` | the daemon as a whole: the socket protocol in front of every user's agent chain |
| `DbusCodec` | requests and parameters as message arguments |
| `RemoteStore` | the exposed store, its query objects, and the proxy that resolves it |
| `AgentRegistry` | per-user agents registered over the bus, on both sides |
| `MirAgent` | the walk to a Mir session, the resources it holds, the stop callback |

Objects that the source updates in place (store, query, token, writers, readers, agents, registry)
are classes whose methods are proved against functions on values; the laws are lemmas about those
functions. Protocols are functions from a state and a label to the next state, and runs are
arbitrary sequences of labels.

## Assumptions

- SQLite: a fresh row id is one above the largest; `reset` keeps bindings; only a ready statement
  can be bound; an unbound parameter is NULL; the sorting SELECT reads the table at its first step
  and yields ties in row-id order; a step past the end of the results starts the SELECT over; a
  statement made by `sqlite3_prepare` reports the failure of a step again at the next `reset`.
- Conversions between integer types keep the low bits, as GCC does.
- Socket streams are FIFO, and a write that fails has written nothing. The errors that make the stub
  forget a session come from broken connections; other errors can come at any time.
- When a pid is reused, the start time strictly increases. The application id of a process does not
  change while it lives.
- A skeleton consults its user's agent chain without interruption by other consultations of the
  same user; each user has one store, empty at first.
- Sending a signal to the invalid process has no effect.
- Calls and replies of one bus client travel in order; clients interleave freely.
- User replies, the clock, the process tree and the outcome of foreign calls are inputs.
- Counters, row ids and start times are unbounded.

## Where the code does less than it says

- An empty application id is not bound at all, so a request or a removal without a name acts on the
  name bound before it: `SqliteStore.InsertFixedByRequestIff`, `RemovalFixedByArgumentIff`,
  `UnnamedRequestBorrows`, `UnnamedRequestBlocks`, `CachedAgent.LookupReadsOwnRowsIff`.
- Features are written with 32 and queried with 64 bits: `SqliteStore.FoundByFeatureIff`,
  `FeaturesCollideIff`, `CachedAgent.RememberedIff`, `WideFeatureReplacesAnswer`. Row ids are narrowed
  by `erase`: `SqliteStore.EraseAllDeletesMatchesIff`.
- `all` resets the statement but not the status: `SqliteStore.StatusTracksRowIff`.
- A session's lock is declared and never taken, so a send can get the answer to another one's
  request: `SocketProgress.WriteMisleadsIff`, `FeaturesSwapFromStart`. Taking it would not be enough:
  a send whose read fails on a standing connection leaves its answer for the next one:
  `SocketProgress.StaleAnswerMisleadsIff`, `StaleAnswerFromStart`. What users of the protocol have to
  see to, and no more, is `SocketProtocol.Disciplined`: `SocketProtocol.StepKeepsInvIff`.
- A skeleton that throws stops reading, and the send behind it waits on:
  `SocketProgress.WaitingSendReturnsIff`, `StuckFromStart`.
- A socket error forgets whatever session is registered for the user, even a newer, working one:
  `SocketProgress.ErrorForgetsNewerIff`, `ErrorForgetsNewerSession`.
- A client forgets its skeleton even if the unregister call is lost or its implementation throws:
  `AgentRegistry.StepConsistentIff`, `LostUnregisterDangles`, `ThrowingUnregisterDangles`.
- The translator named after exit status success grants every exit status but failure:
  `MirAgent.GrantsOnlySuccessIff`. A stop that comes before the child is stored has no effect:
  `MirAgent.StopRespectedIff`.

## Model

| member | source | states |
|---|---|---|
| SqliteStore.ApplyRefines | src/core/trust/impl/sqlite3/store.cpp:768-801 | one add, removal or reset that names its application succeeds and acts on the contents as on a plain list, and row ids stay increasing |
| SqliteStore.HistoryRefines | src/core/trust/impl/sqlite3/store.cpp:143-207 | over every history with names, every call succeeds and the table holds what the plain list holds, although bindings survive `reset` |
| SqliteStore.InsertFixedByRequestIff | src/core/trust/impl/sqlite3/store.cpp:782-792 | the inserted row depends on the request alone, whatever was bound before, if and only if the request names an application |
| SqliteStore.RemovalFixedByArgumentIff | src/core/trust/impl/sqlite3/store.cpp:794-801 | a removal depends on its argument alone if and only if the argument is not empty |
| SqliteStore.UnnamedRequestBorrows | src/core/trust/impl/sqlite3/store.cpp:143-159 | from any state, an unnamed request is stored as if it named the application bound before, which is that of the last named insertion |
| SqliteStore.UnnamedRequestBlocks | src/core/trust/impl/sqlite3/store.cpp:782-792 | with nothing bound it fails, the next insertion fails with it, and the one after that is stored |
| SqliteStore.FailureWaits | src/core/trust/impl/sqlite3/store.cpp:786-786 | neither resets nor removals clear a failed insertion: the next addition after them fails and changes nothing else |
| SqliteStore.HistoryBorrows | src/core/trust/impl/sqlite3/store.cpp:768-801 | over every history, named or not, once something is inserted: every call succeeds and the table holds what the plain list holds after the history with all names written out |
| SqliteStore.IdsBounded | src/core/trust/impl/sqlite3/store.cpp:441-447 | row ids are never larger than the number of additions ever made |
| SqliteStore.SelectIsSelection | src/core/trust/impl/sqlite3/store.cpp:524-537 | the SELECT yields each row that passes the filter exactly once, newest first, ties by row id |
| SqliteStore.SelectionUnique | src/core/trust/impl/sqlite3/store.cpp:524-537 | rows in that order are determined by which rows they are, so the promise leaves no choice |
| SqliteStore.CursorVisitsSelection | src/core/trust/impl/sqlite3/store.cpp:561-679 | after `execute` the k-th `next` shows the k-th selected row as it was at `execute`, whatever others do to the table, and reports more results; after the last row the end is reported, `current` has no result and `erase` throws |
| SqliteStore.NextStartsOver | src/core/trust/impl/sqlite3/store.cpp:620-633 | a `next` beyond the end starts the query over on the table as it is then |
| SqliteStore.ArmedIff | src/core/trust/impl/sqlite3/store.cpp:555-564 | a query reports that it is armed, and has no current result, exactly until the first call that steps it |
| SqliteStore.OnlyStepsMoveStatus | src/core/trust/impl/sqlite3/store.cpp:598-633 | calls that do not step a query leave the status it reports alone, `all` included |
| SqliteStore.EraseThrowsIff | src/core/trust/impl/sqlite3/store.cpp:635-647 | `erase` throws if and only if the end of the results is reported, and off a row it deletes nothing |
| SqliteStore.AllOnRowShowsEmpty | src/core/trust/impl/sqlite3/store.cpp:598-602 | after `all` on a row the query reports more results and shows an empty, denied request |
| SqliteStore.RestrictionsOnlyBeforeExecute | src/core/trust/impl/sqlite3/store.cpp:566-596 | from `execute` on a restriction throws and changes nothing, until `all`; an empty application id never throws |
| SqliteStore.ConfigureNarrows | src/core/trust/impl/sqlite3/store.cpp:566-602 | after `all`, any sequence of restrictions leaves the filter that is the conjunction of the last one of each kind, empty ids restricting nothing |
| SqliteStore.QuerySelectsConjunction | src/core/trust/impl/sqlite3/store.cpp:566-618 | whatever was done with a query before, `all`, any restrictions and `execute` select exactly the rows satisfying all of them, in order |
| SqliteStore.StatusTracksRowIff | src/core/trust/impl/sqlite3/store.cpp:598-647 | from `execute` on the status is "more results" exactly while the statement stands on a row, and the only operation that breaks this is `all` on a row |
| SqliteStore.NarrowingsAgreeIff | src/core/trust/impl/sqlite3/store.cpp:161-191 | the 32-bit and the 64-bit reading of a feature agree exactly when the upper half repeats bit 31 |
| SqliteStore.FoundByFeatureIff | src/core/trust/impl/sqlite3/store.cpp:573-578 | a stored request is found by its own feature exactly when the upper half of the feature repeats bit 31 |
| SqliteStore.FeaturesNeverCollide | src/core/trust/impl/sqlite3/store.cpp:788-788 | in that range a query for one feature matches the stored form of another only if they are equal |
| SqliteStore.FeaturesCollideIff | src/core/trust/impl/sqlite3/store.cpp:573-578 | different features collide if and only if the stored one is outside that range, the queried one inside, and they share their low 32 bits |
| SqliteStore.ReadBackIff | src/core/trust/impl/sqlite3/store.cpp:649-679 | a whole request survives add and `current` exactly for such features and ids without NUL |
| SqliteStore.EraseHitsCurrentRowIff | src/core/trust/impl/sqlite3/store.cpp:635-647 | `erase` deletes the row the cursor shows exactly when its id is below 2^31 |
| SqliteStore.EraseToEndDeletes | src/core/trust/impl/sqlite3/store.cpp:635-647 | erasing from any position to the end removes exactly the pending rows, one erase each |
| SqliteStore.EraseToEndSpares | src/core/trust/impl/sqlite3/store.cpp:635-647 | whatever the ids, erasing ends after one erase per pending row and never deletes a row with a large id |
| SqliteStore.EraseAllDeletesMatchesIff | src/core/trust/impl/sqlite3/store.cpp:604-647 | execute and erase to the end takes as many erases as there are matches, and removes exactly the matching rows if and only if their ids are below 2^31 |
| SqliteStore.Store.constructor | src/core/trust/impl/sqlite3/store.cpp:735-744 | a store opens with the rows of its file and nothing bound |
| SqliteStore.Store.ResetStore | src/core/trust/impl/sqlite3/store.cpp:768-779 | the object does what the store function says for a reset: all rows go, bindings stay |
| SqliteStore.Store.AddRequest | src/core/trust/impl/sqlite3/store.cpp:782-792 | the object does what the store function says for an add, failures and leftover bindings included |
| SqliteStore.Store.RemoveApp | src/core/trust/impl/sqlite3/store.cpp:794-801 | the object does what the store function says for a removal |
| SqliteStore.Query.constructor | src/core/trust/impl/sqlite3/store.cpp:555-559 | a fresh query is armed, unrestricted and bound to its store |
| SqliteStore.Query.RestrictToApplication | src/core/trust/impl/sqlite3/store.cpp:566-571 | binds the id unless it is empty, throws while the statement is running |
| SqliteStore.Query.RestrictToFeature | src/core/trust/impl/sqlite3/store.cpp:573-578 | binds the feature as a 64-bit integer, throws while the statement is running |
| SqliteStore.Query.RestrictToInterval | src/core/trust/impl/sqlite3/store.cpp:580-589 | binds both bounds, throws while the statement is running |
| SqliteStore.Query.RestrictToAnswer | src/core/trust/impl/sqlite3/store.cpp:591-596 | binds the answer, throws while the statement is running |
| SqliteStore.Query.MatchAll | src/core/trust/impl/sqlite3/store.cpp:598-602 | rewinds and unbinds, and leaves the status alone |
| SqliteStore.Query.ExecuteQuery | src/core/trust/impl/sqlite3/store.cpp:604-618 | restarts the statement on the current table and sets the status |
| SqliteStore.Query.MoveNext | src/core/trust/impl/sqlite3/store.cpp:620-633 | moves to the next row of the result or to its end |
| SqliteStore.Query.EraseCurrent | src/core/trust/impl/sqlite3/store.cpp:635-647 | throws at the end of the results, else deletes by the narrowed id and moves on |
| SqliteStore.Query.GetCurrent | src/core/trust/impl/sqlite3/store.cpp:649-679 | the request on the current row, or the exception the status calls for |
| CachedAgent.LookupReadsKeyRows | src/core/trust/cached_agent.cpp:50-66 | the answer found is decided by the rows of the application and feature alone |
| CachedAgent.LookupFindsNewest | src/core/trust/cached_agent.cpp:50-66 | it is the answer of the newest row of the key, and nothing is found exactly when the key has no row |
| CachedAgent.LookupReadsOwnRowsIff | src/core/trust/cached_agent.cpp:53-57 | an application is judged by its own rows alone, for every table, if and only if it has a name |
| CachedAgent.ReactOnKey | src/core/trust/cached_agent.cpp:47-91 | exactly what is found for any key after any event: the standing answer, the reply to a prompt, the newer of two additions, or nothing |
| CachedAgent.AddOnKey | src/core/trust/impl/sqlite3/store.cpp:782-792 | an addition leaves the newer of the old and the new answer under its own key and changes no other key |
| CachedAgent.NewestOfAppended | src/core/trust/impl/sqlite3/store.cpp:524-537 | a row added last becomes the newest exactly if it is strictly newer |
| CachedAgent.MemoStep | src/core/trust/cached_agent.cpp:47-91 | one event keeps store and memo table in agreement on every key, with equal answer and prompts |
| CachedAgent.CacheIsMemo | src/core/trust/cached_agent.cpp:47-91 | over every sequential run the agent on SQLite gives the answers and prompts of a memo table that keeps the newest answer per key |
| CachedAgent.EmptyStoreAgrees | src/core/trust/cached_agent.cpp:47-91 | an empty store agrees with an empty memo table, so the law covers every run from an empty store |
| CachedAgent.AnswerSticks | src/core/trust/cached_agent.cpp:59-66 | once answered, a key gets the same answer after any run that spares it, without prompt or change |
| CachedAgent.AtMostOnePrompt | src/core/trust/cached_agent.cpp:68-90 | in any run that spares a key the user answers for it at most once, and never if an answer is stored |
| CachedAgent.NoAnswerNoChange | src/core/trust/cached_agent.cpp:68-90 | a throwing prompt leaves the store as it was, and is the only way to get no answer |
| CachedAgent.RememberedIff | src/core/trust/cached_agent.cpp:82-88 | a prompted answer is found again exactly when the feature survives the narrowing |
| CachedAgent.UnnamedPrompt | src/core/trust/cached_agent.cpp:82-90 | a prompted answer for an application without name is stored under the last inserted one, or lost in an exception if there is none |
| CachedAgent.LostAnswerCostsNext | src/core/trust/cached_agent.cpp:82-90 | after that exception the next prompted answer is lost as well |
| CachedAgent.WideFeatureNeverFound | src/core/trust/cached_agent.cpp:53-57 | other features are never found, in any table |
| CachedAgent.WideFeatureReplacesAnswer | src/core/trust/cached_agent.cpp:82-88 | and their answers replace those of the feature that shares their low 32 bits |
| CachedAgent.QueryStore | src/core/trust/cached_agent.cpp:50-66 | the query object, configured and executed step by step, reads what the lookup function says |
| CachedAgent.CachingAgent.AuthenticateRequest | src/core/trust/cached_agent.cpp:47-91 | store, prompts and answer change as the sequential model says |
| CachedAgent.ProcessTrustRequest | src/core/trust/request.cpp:24-72 | the free function changes store, prompts and answer exactly as the agent does |
| InterleavedCache.StepSound | src/core/trust/cached_agent.cpp:47-91 | every step of any call keeps: rows and returned answers come from an answer for that very key |
| InterleavedCache.AnswersBelongToKey | src/core/trust/cached_agent.cpp:47-91 | in every interleaving a returned answer was given by the user for that key or stored for it |
| InterleavedCache.InitiallySound | src/core/trust/cached_agent.cpp:47-91 | every store without a failed insertion is a start for that law |
| InterleavedCache.StepLeavesQuiet | src/core/trust/cached_agent.cpp:47-91 | no step of any other call disturbs a quiet key |
| InterleavedCache.QuietKeyAnswers | src/core/trust/cached_agent.cpp:47-91 | from the moment a key is quiet, along every interleaving that spares it, all calls yet to look up return its newest answer and nobody is asked again |
| InterleavedCache.StoringQuietens | src/core/trust/cached_agent.cpp:79-90 | storing an answer makes its key quiet if and only if no other call on it is still to store one |
| InterleavedCache.AloneItIsSequential | src/core/trust/cached_agent.cpp:47-91 | an uninterrupted call is the sequential one, in store, answer and log, for every id, whether it hits, prompts, or prompt or store throw |
| InterleavedCache.OverlappingCallsMayDiffer | src/core/trust/cached_agent.cpp:68-90 | two calls that both missed can return different answers |
| AppIdFormatting.StarSettles | src/core/trust/app_id_formatting_trust_agent.cpp:39-48 | the backtracking star settles on the longest choice after which the rest matches |
| AppIdFormatting.MatchVersioned | src/core/trust/app_id_formatting_trust_agent.cpp:39-51 | the first two captures of a versioned id, joined, are its prefix before the last underscore |
| AppIdFormatting.MatchOnlyVersioned | src/core/trust/app_id_formatting_trust_agent.cpp:48-51 | the pattern accepts nothing but one line with at least two underscores |
| AppIdFormatting.FormatIsCut | src/core/trust/app_id_formatting_trust_agent.cpp:39-51 | for every id, the greedy match rewrites as a plain cut at the last underscore does |
| AppIdFormatting.FormatIff | src/core/trust/app_id_formatting_trust_agent.cpp:39-51 | in plain terms: an id is rewritten to another one if and only if it is that package, an underscore and a version without underscore, with an underscore in the package and no newline or carriage return |
| AppIdFormatting.FormatIdempotentIff | src/core/trust/app_id_formatting_trust_agent.cpp:39-51 | rewriting is idempotent on an id exactly when it has fewer than three underscores or a line terminator |
| AppIdFormatting.VersionsShareFormat | src/core/trust/app_id_formatting_trust_agent.cpp:37-51 | ids that differ only behind the last underscore are rewritten to the same package id |
| AppIdFormatting.FormatKeepsNames | src/core/trust/app_id_formatting_trust_agent.cpp:48-51 | rewriting never empties an id |
| AgentChain.ChainRunsCache | src/core/trust/daemon.cpp:307-329 | a run of the chain is a run of the cache on the formatted events that are not white-listed |
| AgentChain.GrantedUnasked | src/core/trust/daemon.cpp:316-323 | for every world: an unconfined application is granted unasked, and the camera unless white-listing is disabled; any other gets its stored answer, or the user is asked about its id without version |
| AgentChain.CameraGrantedIff | src/core/trust/daemon.cpp:320-320 | every version of the camera is granted unasked if and only if white-listing is not disabled |
| AgentChain.WhiteListedGranted | src/core/trust/white_listing_agent.cpp:41-47 | anywhere in a run a white-listed id is granted, and everything else goes on as without it |
| AgentChain.VersionsShareAnswer | src/core/trust/daemon.cpp:307-329 | ids with one formatted id share their answer, without a second prompt, through any run that spares the key |
| AgentChain.VersionsOfPackageShareAnswer | src/core/trust/daemon.cpp:307-329 | the same for any two versions of one package |
| AgentChain.VersionsShareOnePrompt | src/core/trust/daemon.cpp:307-329 | all versions together cost the user at most one answer per feature |
| AgentChain.ChainAgrees | src/core/trust/daemon.cpp:307-329 | after any events a user's chain has in store what the memo table has |
| AgentChain.ChainStepOnKey | src/core/trust/daemon.cpp:307-329 | an event that spares a key keeps the chain's standing answer, and an authentication of the key is given the answer that stands after it |
| SocketProtocol.StepKeepsInv | src/core/trust/remote/posix.cpp:138-335 | every disciplined step of stub, skeleton, registry and process table keeps the protocol invariant |
| SocketProtocol.StepKeepsInvIff | src/core/trust/remote/posix.cpp:138-335 | a step keeps the invariant if and only if it neither writes to a session on which another send waits nor gives up waiting while the connection stands |
| SocketProtocol.TraceKeepsInv | src/core/trust/remote/posix.cpp:138-335 | so it holds at every point of every disciplined run |
| SocketProtocol.OneMessagePerWaitingSend | src/core/trust/remote/posix.cpp:138-309 | at every point of every disciplined run a session holds exactly one of unread request, request in service, unread answer while a send waits, that send's, and nothing otherwise |
| SocketProtocol.HeldBetween | src/core/trust/remote/posix.cpp:178-188 | a process that holds a pid at two moments holds it at all moments between |
| SocketProtocol.AnswerIsForTheAskingProcess | src/core/trust/remote/posix.cpp:138-193 | in every disciplined interleaving, a send that returns got the answer decided for its own user, pid and feature and for the process that held the pid from the first sample to the last, from a session of that user |
| SocketProgress.VerifiesExactlyTheSampledProcess | src/core/trust/remote/posix.cpp:311-320 | a verifying skeleton goes on exactly while the sampled process still holds the pid |
| SocketProgress.ServiceStopsIff | src/core/trust/remote/posix.cpp:292-335 | a skeleton stops exactly if verification fails, no process has the pid, the prompt throws, or the connection is broken when the answer is written; else the request goes on |
| SocketProgress.ServiceGoesOn | src/core/trust/remote/posix.cpp:279-309 | a skeleton that has not stopped always has a next step until all requests are served, and a stopped one has none |
| SocketProgress.FindsOrThrows | src/core/trust/remote/posix.cpp:144-145 | a send finds the registered session, or throws for want of one |
| SocketProgress.WritesOrThrows | src/core/trust/remote/posix.cpp:155-163 | then it can write exactly on a standing connection, and errors make it throw |
| SocketProgress.ReadsOrThrows | src/core/trust/remote/posix.cpp:165-176 | then it can read exactly an answer that is there, and errors make it throw |
| SocketProgress.ReturnsOrThrows | src/core/trust/remote/posix.cpp:178-192 | and it returns what it has read if and only if the sampled process still has its pid |
| SocketProgress.ConnectRegisters | src/core/trust/remote/posix.cpp:195-210 | a new connection becomes the user's session, ready for a send, and concerns no other user, session or send |
| SocketProgress.RegistryIsLastConnection | src/core/trust/remote/posix.cpp:58-85 | in every run the registry holds exactly each user's last connection since a peer of the user was last found gone |
| SocketProgress.ResolvesLastConnection | src/core/trust/remote/posix.cpp:144-145 | in every run a send goes to that connection, and throws if there is none |
| SocketProgress.UndisturbedSendReturns | src/core/trust/remote/posix.cpp:138-335 | an undisturbed send returns what the user's agent decides |
| SocketProgress.WaitingSendReturnsIff | src/core/trust/remote/posix.cpp:165-193 | from any state of the invariant, a waiting send can still return if and only if the sampled process holds its pid, and the answer is there or the skeleton is connected and has not thrown |
| SocketProgress.StuckFromStart | src/core/trust/remote/posix.cpp:302-309 | a run from the start after which a send waits and nothing can make it return |
| SocketProgress.LeftoverReturns | src/core/trust/remote/posix.cpp:155-173 | a send that writes behind the message of another request, answered or still to be answered, can return the answer to that one |
| SocketProgress.LeftoverMisleadsIff | src/core/trust/remote/posix.cpp:155-193 | it can do so if and only if the requests differ, the asking process is still there, and the message is or can still be answered |
| SocketProgress.WriteMisleadsIff | src/core/trust/remote/posix.h:120-126 | from any state of the invariant, any write can make its send return the answer to another request if and only if another send waits with a different, answerable request and the asking process is still there |
| SocketProgress.StaleAnswerMisleadsIff | src/core/trust/remote/posix.cpp:170-176 | after a send has given up on a standing connection, the next write is misleading under the same conditions although nobody waits |
| SocketProgress.StaleAnswerFromStart | src/core/trust/remote/posix.cpp:225-230 | a run from the start, one send at a time, in which the answer for one feature is returned for another |
| SocketProgress.FeaturesSwapFromStart | src/core/trust/remote/posix.cpp:138-193 | from the start the code reaches a state in which the answer for one feature is returned for another |
| SocketProgress.ErrorForgetsNewerIff | src/core/trust/remote/posix.cpp:212-231 | a socket error forgets an open session if and only if the one registered for the user is open and not the session of the failing send |
| SocketProgress.ErrorForgetsNewerSession | src/core/trust/remote/posix.cpp:195-231 | a run from the start in which a user reconnects while a send is under way and ends up unregistered |
| SocketChain.StepProjects | src/core/trust/remote/posix.cpp:292-335 | every step of the daemon, consultations that end after the connection broke included, is a step of the socket protocol or leaves the sockets alone |
| SocketChain.StepKeepsDaemonInv | src/core/trust/remote/posix.cpp:292-335 | and keeps the protocol invariant, with only named applications and storable features in front of the chains |
| SocketChain.StepOnWorld | src/core/trust/remote/posix.cpp:322-334 | only consultations for a user and upkeep of the user's store change the user's world, the first as the chain reacts to what was sent, the second as the store operation does |
| SocketChain.StepKeyAgrees | src/core/trust/daemon.cpp:307-329 | every step that spares a key keeps all decisions about it, wherever they are, equal to the standing answer of the user's chain |
| SocketChain.ReturnedWasMemoAnswer | src/core/trust/remote/posix.cpp:311-335 | over every run, whatever is done to the stores, what a send returns is what the user's memo table said right after the consultation about this send's process, application and feature |
| SocketChain.SocketReturnsMemoAnswer | src/core/trust/remote/posix.cpp:311-335 | over every run that spares the key, it is the memo answer that still stands, for the formatted id of the process that asked, or a grant if white-listed |
| SocketChain.VersionsAgreeOverSocket | src/core/trust/daemon.cpp:307-329 | two versions of one application never get different answers for a feature over the socket |
| SocketChain.FirstAnswerReturns | src/core/trust/remote/posix.cpp:292-335 | some run of the daemon from its start returns, with the user's first reply as the answer, or a grant if white-listed |
| DbusCodec.DecodeEncodedRequest | src/core/trust/dbus/codec.h:77-95 | decoding an encoded request before any suffix gives it back up to a NUL in its id, and leaves the suffix |
| DbusCodec.DecodeEncodedParameters | src/core/trust/dbus/codec.h:97-117 | likewise for parameters, negative pids included |
| DbusCodec.RequestLayout | src/core/trust/dbus/codec.h:80-86 | types, order and numbers of a request on the bus, answers being 0 and 1 |
| DbusCodec.ParametersLayout | src/core/trust/dbus/codec.h:100-107 | types and order of the parameters on the bus |
| DbusCodec.StatusNumbers | src/core/trust/dbus/codec.h:57-60 | the statuses are the bytes 0 to 3 |
| DbusCodec.RequestRoundTripIff | src/core/trust/dbus/codec.h:77-95 | a request survives the round trip, pre-epoch times included, if and only if its id has no NUL |
| DbusCodec.ParametersRoundTripIff | src/core/trust/dbus/codec.h:97-117 | parameters survive it if and only if id and description have no NUL |
| DbusCodec.StatusRoundTrip | src/core/trust/dbus/codec.h:49-61 | a status survives as a byte |
| DbusCodec.Writer.PushRequest | src/core/trust/dbus/codec.h:80-86 | the writer appends exactly the encoded request |
| DbusCodec.Writer.PushParameters | src/core/trust/dbus/codec.h:100-107 | the writer appends exactly the encoded parameters |
| DbusCodec.Reader.PopRequest | src/core/trust/dbus/codec.h:88-94 | the reader takes off exactly one request, or faults |
| DbusCodec.Reader.PopParameters | src/core/trust/dbus/codec.h:109-116 | the reader takes off exactly one set of parameters, or faults |
| Decimals.ReadPrinted | src/core/trust/expose.cpp:191-195 | a printed counter can be read back |
| Decimals.PrintedInjective | src/core/trust/expose.cpp:191-195 | behind any prefix, printed counters coincide only if the counters do |
| RemoteStore.PathsInjective | src/core/trust/expose.cpp:191-195 | so paths of different counters differ, and none is the root |
| RemoteStore.FirstPaths | src/core/trust/expose.cpp:195-195 | the paths as a client sees them |
| RemoteStore.PathsAreConsecutive | src/core/trust/expose.cpp:191-195 | after any calls the next query gets the number of queries created so far |
| RemoteStore.QueryEffect | src/core/trust/expose.cpp:199-286 | a proxy's operation acts on the query object at its path as the local operation would, and on nothing else but the rows |
| RemoteStore.CallMirrors | src/core/trust/resolve.cpp:69-247 | one call has the same outcome on both stores and leaves them in step |
| RemoteStore.ResolvedStoreRefinesLocal | src/core/trust/resolve.cpp:69-247 | every run of a client has the same statuses, requests, missing results and failures on the resolved store as on the local one, except that an operation that throws on a query is never answered |
| RemoteStore.FreshServiceMirrors | src/core/trust/expose.cpp:72-108 | a newly exposed store is in step with the local one |
| RemoteStore.QueriesAreIsolated | src/core/trust/expose.cpp:189-302 | operations on one remote query never touch the bindings or the cursor of another |
| RemoteStore.GoneQuery | src/core/trust/resolve.cpp:94-184 | a proxy whose object is gone gets errors, reported as its methods do, and changes nothing |
| RemoteStore.MissingArguments | src/core/trust/expose.cpp:124-320 | a message that lacks its arguments changes nothing and is not answered, except that the removal of a query is always confirmed |
| RemoteStore.Perform | src/core/trust/expose.cpp:199-286 | each handler's call on the query object is the operation its member name stands for |
| RemoteStore.NextPathUnused | src/core/trust/expose.cpp:191-195 | the next path was never issued before, and issued paths stay issued |
| RemoteStore.ReadOp | src/core/trust/expose.cpp:238-273 | popping the arguments off the message gives the operation the decoding function gives |
| RemoteStore.WriteReply | src/core/trust/expose.cpp:206-286 | the pushed reply is the encoded outcome, an error for a missing result, and nothing after another exception |
| RemoteStore.Token.constructor | src/core/trust/expose.cpp:72-108 | a new token exposes its store with no query objects, on the counter all tokens share |
| RemoteStore.Token.OnAdd | src/core/trust/expose.cpp:124-145 | decodes, adds, and replies with success or the error |
| RemoteStore.Token.OnRemoveApplication | src/core/trust/expose.cpp:147-168 | decodes, removes and replies |
| RemoteStore.Token.OnReset | src/core/trust/expose.cpp:170-187 | empties the store and replies, or sends an error and then a reply if the database refuses |
| RemoteStore.Token.OnAddQuery | src/core/trust/expose.cpp:189-302 | adds a fresh query object under the next path, which no token has used before, and replies with the path |
| RemoteStore.Token.OnRemoveQuery | src/core/trust/expose.cpp:304-320 | drops the object at the path, if any, and replies twice, or once if no path can be read |
| RemoteStore.Token.OnQueryMessage | src/core/trust/expose.cpp:199-286 | changes only the query object at the path and the rows, as the handler function says |
| AgentRegistry.SettledAppend | src/core/trust/dbus/agent_registry.h:152-234 | a reply takes effect on what the client will hold after all replies before it |
| AgentRegistry.StepConsistentIff | src/core/trust/dbus/agent_registry.h:263-338 | each registered endpoint stays backed by a skeleton its client holds or is about to hold after every call, reply, refusal and failed reply, and after a lost or throwing unregister call if and only if that is harmless |
| AgentRegistry.RegistriesAgree | src/core/trust/dbus/agent_registry.h:152-338 | over all runs with any number of clients, lost and throwing unregister calls only where harmless: with no reply under way, each registered user maps to the client and path of a skeleton held there for that user |
| AgentRegistry.ServeConcernsOneUser | src/core/trust/dbus/agent_registry.h:263-338 | serving a call changes the entry of the user named in it and no other: registered, removed, kept when refused, removed when the reply fails |
| AgentRegistry.EndpointStays | src/core/trust/dbus/agent_registry.h:263-338 | over every run a user keeps its endpoint until a call about this user settles otherwise |
| AgentRegistry.NoCallIsLost | src/core/trust/dbus/agent_registry.h:152-234 | over every run the calls a client has made are those served so far, in this order, and those under way |
| AgentRegistry.RegistrationOutcome | src/core/trust/dbus/agent_registry.h:152-180 | an undisturbed registration ends in both registries; if its reply fails, the user ends up without agent and the client with what it had |
| AgentRegistry.LostUnregisterIff | src/core/trust/dbus/agent_registry.h:222-234 | losing an unregister call is harmless if and only if the user is not registered to that client or a newer skeleton is on its way |
| AgentRegistry.ServeUnregisterConsistentIff | src/core/trust/dbus/agent_registry.h:323-338 | serving an unregister call keeps the agreement if and only if the implementation does not throw or the user is not registered to that client |
| AgentRegistry.LostUnregisterDangles | src/core/trust/dbus/agent_registry.h:222-234 | a run from the start that leaves a user registered without a skeleton |
| AgentRegistry.ThrowingUnregisterDangles | src/core/trust/dbus/agent_registry.h:323-338 | the same end after an unregister call whose implementation throws |
| AgentRegistry.AgentPathsInjective | src/core/trust/dbus/agent_registry.h:122-129 | different counters give different paths |
| AgentRegistry.AnnouncedPathsDiffer | src/core/trust/dbus/agent_registry.h:122-171 | over every run a client never announces two skeletons under one path |
| AgentRegistry.FirstAgentPath | src/core/trust/dbus/agent_registry.h:127-127 | the first path as the service sees it |
| AgentRegistry.LockingAgentRegistry.RegisterAgentForUser | src/core/trust/dbus/agent_registry.h:37-41 | sets the user's agent and changes no other user |
| AgentRegistry.LockingAgentRegistry.UnregisterAgentForUser | src/core/trust/dbus/agent_registry.h:43-47 | removes the user's agent and changes no other user |
| AgentRegistry.LockingAgentRegistry.OnRegister | src/core/trust/dbus/agent_registry.h:263-321 | registers, and rolls back when the reply cannot be sent |
| AgentRegistry.LockingAgentRegistry.OnUnregister | src/core/trust/dbus/agent_registry.h:323-338 | unregisters, and passes over an implementation that throws |
| MirAgent.GrantsOnlySuccessIff | src/core/trust/mir/agent.cpp:194-211 | a result is granted for success alone exactly when the provider keeps to the two statuses it knows |
| MirAgent.TranslatesExits | src/core/trust/mir/agent.cpp:194-211 | exit status 1 and nothing else is a denial, any other exit a grant, and anything but an exit an exception |
| MirAgent.AncestorsDiffer | src/core/trust/mir/agent.cpp:266-298 | on a tree the parent walk meets no process twice |
| MirAgent.WalkEnds | src/core/trust/mir/agent.cpp:276-297 | where the loop throws, no reachable ancestor has a session |
| MirAgent.WalkGoesByText | src/core/trust/mir/agent.cpp:276-297 | the walk goes on to the parent, unless that is init, exactly for Mir's text for a missing session, ends well without error, and throws on any other text |
| MirAgent.OpenSession | src/core/trust/mir/agent.cpp:266-298 | the walk terminates on every acyclic tree, finds the nearest ancestor with a session or shows there is none, and holds at most one session |
| MirAgent.RunProvider | src/core/trust/mir/agent.cpp:300-317 | from descriptor to return or throw, all resources are given back and the answer is the translated end of the provider |
| MirAgent.AuthenticateRequest | src/core/trust/mir/agent.cpp:229-317 | the descriptor belongs to a session of the nearest ancestor; without one nothing is opened or started; the books balance on every path; the answer is a denial if and only if the provider ran and exited with 1, and a grant if and only if it exited otherwise |
| MirAgent.BalancedCounts | src/core/trust/mir/agent.cpp:240-256 | balanced books mean: each session created is released once and each descriptor opened is closed once |
| MirAgent.NeverGrantsAfterStop | src/core/trust/mir/agent.cpp:169-211 | in every interleaving, a stop after the child is stored and before it ends is never followed by a grant; a grant means the child exited by itself, a denial that it exited with 1 |
| MirAgent.ReapIff | src/core/trust/mir/agent.cpp:313-316 | waiting ends exactly when the child has ended or is paused, a paused child means no answer, and an ended one the answer of its end |
| MirAgent.EarlyStopMayGrant | src/core/trust/mir/agent.cpp:231-238 | a run in which a stop comes first and the agent grants |
| MirAgent.StopRespectedIff | src/core/trust/mir/agent.cpp:185-192 | after the callback a grant is still possible if and only if the child was not stored yet or had exited, and had not failed |

## Left out

- SQLite, dbus-cpp, Boost.Asio, Mir, AppArmor and process-cpp internals; they enter as the assumptions above.
- Schema upgrade and opening of the database file.
- DbusCodec.Reader.PopRequest: faults on answer bytes other than 0 and 1, which the source casts to an enumeration value without a name; likewise for status bytes beyond 3.
- Bus timeouts and lost messages, except a registration reply that cannot be sent and a lost unregister call.
- Wrap-around of the 64-bit and 32-bit path counters, and row ids at the top of the 64-bit range.
- The socket protocol, the bus registry and the proxy side of the store are step systems on values; their buffers, shared pointers and locks are not modelled as objects.
- Fairness of schedulers: progress is stated as what can still happen, not as what must.
- `remote/dbus.cpp`: a lookup in the registry and one forwarded call.
- `preseed.cpp`: parsing of command-line requests and a loop of additions.
- `PrivilegeEscalationPreventionAgent`, reporters and null checks: one branch each.
- Daemon and runtime set-up, command line, agent factories, bus factory.
- XDG directories, desktop entries, terminal and Qt prompts, translations.
