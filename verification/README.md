# gofly: verified core

gofly is a Go microservice framework. This project models nine of its parts that hold state machines, codecs and tree
transformations, and proves what they are for. With Dafny 4.11, `dafny verify dfyconfig.toml` checks the whole project.

| part | modules |
|---|---|
| Load balancers | `Endpoints`, `WeightedRoundRobin`, `ConsistentHash` |
| JSON path transcoder | `TranscodeSchema`, `JsonPaths`, `TranscodeMapping`, `PayloadStore` |
| TTL/LRU cache | `RecencyList` (what it should do), `Cache` (the stamped map) |
| Connection pool | `ConnPool` (the steps and what they keep), `ConnPoolRuns` (one connection over a run) |
| Governed export delivery | `Delivery` (the steps), `DeliveryBooks`, `DeliveryCalls` (what they keep), `DeliveryRuns` (theorems over runs), `DeliveryExporter` (the object) |
| Idempotency store | `Idempotency`, `IdempotencyTimes` (what the time to live means) |
| WebSocket frames | `WebSocket`, `WebSocketBytes` (frames byte by byte) |
| Mux candidate negotiation | `MuxCandidate`, `MuxPolicies` (what configurations and prefaces say) |
| Gateway route table | `Routes`, `RouteOperations` (what each operation means) |

`GoStrings` holds the few functions of Go's `strings` and `strconv` that the others call.

How the code is represented:

- An object whose methods update fields is a class; its methods are proved equal to a function of the old state, and the
  laws are proved about those functions and about runs of them.
- Concurrent code (pool, delivery, idempotency) is a state machine with one step for each locked section, or for each
  load, store, addition, compare-and-swap and channel operation where there is no lock. A run is any interleaving of
  enabled steps from the initial state; dials, exporter calls, handlers and clocks answer as they please. The methods of
  the pool and of the idempotency store are their locked sections. Those of the exporter follow the control flow of its
  functions, each run without others in between; the object carries the run of steps it stands for, so that what holds
  of every run holds of it.
- Hash functions, loaders, dialers, exporters, other fields of a route, and the number forms that `fmt.Sscan` accepts
  beyond plain decimals are parameters; the theorems hold for all of them.
- Strings are byte strings, one `char` per byte, and white space is ASCII white space. Time is a number that does not
  run backwards.

What the proofs found about the code, each with its exact condition:

- Two lists of endpoints share a ring signature only if an endpoint holds a NUL byte
  (`ConsistentHash.SignatureCollidesOnNul`, `ConsistentHash.CacheIsTransparentExactly`).
- A source path that passes the configuration check is broken at run time exactly when its root is not spelled bare, as
  `body[]` (`TranscodeMapping.AcceptedSourceIsBrokenExactlyAtTheRoot`).
- The body schema holds of what the mappings read for every object body without a body field. A body that is left out or
  not merged is not checked, so an object schema then holds exactly when it requires nothing; and a body field moves the
  validated value one level down
  (`TranscodeMapping.BodyIsSoundExactly`, with `TranscodeMapping.EmptyBodyBreaksSoundness` and
  `TranscodeMapping.BodyFieldBreaksSoundness`).
- Two mappings can be exchanged unless one target is a prefix of the other, and then exactly when the shorter target's
  value brings the other value along (`TranscodeMapping.TwoMappingsCommuteExactly`).
- Closing a stale handle of a reused pooled connection makes the connection idle and in use at once exactly when its
  release would keep it (`ConnPool.StaleCloseSharesConnection`, with a run that gets there).
- An event whose call timed out and panicked, whichever came first, is counted twice; a timeout whose flag is set after its
  call has looked at it leaks a hung call for good; between the flag and the count of a timeout `hungCalls` can be one too
  low, even negative; and a half-open probe turned away at the hung-call limit leaves the breaker blocked until an operator
  forces a probe (`DeliveryRuns.CountersAddUpExactly`, `DeliveryRuns.HungCallsCountLeaks`,
  `DeliveryRuns.BlockedExactlyByHungProbe`, each with a run that gets there).
- A waiter is served the response to another fingerprint exactly when the last request to reserve the key afresh had
  another one, which takes a release or an expiry (`Idempotency.ReplayIsOwnExactly`, with a run for either).
- The preface round trip holds exactly for protocols without white space, and a frame limit of 2^59 or more can make one
  side accept a policy that the other rejects (`MuxCandidate.RoundTripExactly`, `MuxCandidate.OverflowIsOneSided`).
- A server frame carries its type as opcode exactly for types below 16, so always for the types that messages may be
  written with (`WebSocket.OpcodeIsTypeExactly`, `WebSocket.MessageTypeIsOpcode`).
- Replacing the route table does not check for repeated keys (`Routes.ReplaceKeepsKeysExactly`).

## Model

| member | source | states |
|---|---|---|
| `Endpoints.NormalizeEndpoints` | rpc/balancer.go:415-430 | the loop computes `Normalized`, whose laws are in the next rows |
| `Endpoints.NormalizedIsCandidateList` | rpc/balancer.go:415-430 | no candidate is empty and none is repeated |
| `Endpoints.NormalizedMember` | rpc/balancer.go:415-430 | a candidate is in the result exactly when it is not empty and some given endpoint is a spelling of it |
| `Endpoints.CleanIsWhatIsSpelled` | rpc/balancer.go:418-419 | two spellings are one endpoint exactly when they differ only in white space around it and slashes after it |
| `Endpoints.NormalizedWithout` | rpc/balancer.go:415-430 | dropping all spellings of an endpoint drops just that candidate and keeps the order of the others |
| `WeightedRoundRobin.WeightedRoundRobinBalancer.Pick` | rpc/balancer.go:179-207 | answers cancelled, no endpoint, or the leader of the gains; the credits afterwards are `AfterPick` of the old ones, unchanged on an error |
| `WeightedRoundRobin.WeightedRoundRobinBalancer.Charge` | rpc/balancer.go:187-203 | the loop credits every candidate its weight, adds up the total and keeps the first candidate with the most credit |
| `WeightedRoundRobin.WeightOf` | rpc/balancer.go:209-218 | every endpoint weighs at least one |
| `WeightedRoundRobin.PickIsPick` | rpc/balancer.go:187-206 | what Pick does is a pick in the declarative sense: the chosen candidate has the most credit, ties go to the first, it pays the total, all others keep their gain |
| `WeightedRoundRobin.PickConservesSum` | rpc/balancer.go:187-206 | a pick conserves the sum of the candidates' credits |
| `WeightedRoundRobin.PickKeepsLowerBound` | rpc/balancer.go:187-206 | from a zero sum no credit falls to minus the total weight or below |
| `WeightedRoundRobin.PickIsDeterministic` | rpc/balancer.go:187-206 | equal credits give the same choice and equal credits again |
| `WeightedRoundRobin.RunBooks` | rpc/balancer.go:179-207 | over any window of a run a credit moves by the gains less the payments made |
| `WeightedRoundRobin.RunInvariant` | rpc/balancer.go:179-207 | in every run from zero credits the sum stays zero and no credit reaches minus the total |
| `WeightedRoundRobin.NoEndpointRunsAhead` | rpc/balancer.go:179-207 | after any k picks an endpoint of weight w has been chosen c times with c * W < k * w + W |
| `WeightedRoundRobin.NoEndpointFallsBehind` | rpc/balancer.go:179-207 | after any k picks among n endpoints it has been chosen c times with k * w at most c * W plus n - 1 times W - 1 |
| `WeightedRoundRobin.FirstCycle` | rpc/balancer.go:179-207 | the first W picks choose each endpoint exactly its weight times and return every credit to zero |
| `WeightedRoundRobin.CreditsRepeat` | rpc/balancer.go:179-207 | the credits repeat with period W |
| `WeightedRoundRobin.WeightedRoundRobinIsExactlyFair` | rpc/balancer.go:179-218 | any W consecutive picks of a run from zero credits choose each endpoint exactly its weight times and leave every credit as it was before them |
| `WeightedRoundRobin.SharesAreWeights` | rpc/balancer.go:209-218 | the weights in use are the configured positive entries, and one where there is none |
| `WeightedRoundRobin.ConfiguredSharesAreExact` | rpc/balancer.go:179-218 | for any raw list and any table of weights, over as many consecutive picks of a new balancer as the configured shares of the candidates add up to, each candidate is picked as often as its share says |
| `WeightedRoundRobin.PickConservesAllCredits` | rpc/balancer.go:187-206 | a pick over any list conserves the sum of all credits held, those of absent endpoints included |
| `WeightedRoundRobin.CreditsAlwaysSumToZero` | rpc/balancer.go:187-206 | over any run with a different list at every pick the credits sum to zero |
| `ConsistentHash.ConsistentHashBalancer.Pick` | rpc/balancer.go:284-316 | answers cancelled, no endpoint, without a key the next in turn of the candidates cleaned once more, or the server of the key's hash on the ring of the cached list |
| `ConsistentHash.ConsistentHashBalancer.RingFor` | rpc/balancer.go:318-351 | the ring kept is that of the cached list when the signatures agree, else that of the given list |
| `ConsistentHash.ConsistentHashBalancer.Locate` | rpc/balancer.go:290-305 | search and wrap-around find the server of the key |
| `ConsistentHash.Search` | rpc/balancer.go:300-304 | finds the first ring index whose hash is at or after the key |
| `ConsistentHash.SearchFindsServer` | rpc/balancer.go:300-305 | that index, or zero past the end, holds the first point clockwise, and its node is the server |
| `ConsistentHash.PointsAreOnRing` | rpc/balancer.go:337-350 | the points built are exactly the replica hashes of the candidates |
| `ConsistentHash.LabelsDiffer` | rpc/balancer.go:339-345 | the texts hashed for two replicas, of one endpoint or of two, are different |
| `ConsistentHash.NodesAreOwners` | rpc/balancer.go:337-350 | each point belongs to the last candidate that writes it |
| `ConsistentHash.SortedAscends` | rpc/balancer.go:337-350 | the sorted ring ascends and holds the same points |
| `ConsistentHash.ServerIsUnique` | rpc/balancer.go:284-306 | a key has at most one server on a list |
| `ConsistentHash.RemovalMovesOnlyItsKeys` | rpc/balancer.go:284-306 | removing an endpoint changes the server of a key exactly when the key was on that endpoint, for any hash, any replica count, with collisions and wrap-around |
| `ConsistentHash.RemovalKeepsServer` | rpc/balancer.go:284-306 | a key that was elsewhere is still served by the same endpoint |
| `ConsistentHash.SignatureIsInjective` | rpc/balancer.go:318-336 | lists of NUL-free endpoints with one signature are equal |
| `ConsistentHash.SignatureCollidesOnNul` | rpc/balancer.go:318-336 | with a NUL two lists share a signature and the cached ring answers with an endpoint that is not in the list |
| `ConsistentHash.CacheIsTransparent` | rpc/balancer.go:318-351 | over any sequence of picks on NUL-free lists each pick is made on the ring of its own list |
| `ConsistentHash.CacheIsTransparentExactly` | rpc/balancer.go:318-351 | over any lists a pick is made on the ring of the list that began the last stretch of equal signatures, so on its own ring exactly when those two lists are equal |
| `TranscodeSchema.AcceptedLookupIsNotBroken` | gateway/transcode.go:1112-1164 | a lookup along accepted segments never errors, on any document |
| `TranscodeSchema.SchemaSoundness` | gateway/transcode.go:1112-1164 | on a document that passed the value validator (gateway/transcode.go:1294-1350), a path that passed both path validators (gateway/gateway.go:2235-2275, 2351-2373) never errors and finds null or a value of the sub-schema there, element-wise through projections |
| `TranscodeSchema.ValidatesExactly` | gateway/transcode.go:1294-1350 | a document is accepted if and only if, wherever the schema names a kind, it has the JSON type of that kind: text, number, whole number, boolean, array item by item, object field by field with its required fields |
| `TranscodeSchema.FoundHasItsKind` | gateway/transcode.go:1112-1164 | what an accepted path finds in an accepted document has the JSON type that the schema names there |
| `TranscodeSchema.AcceptedExactlyAlongTrails` | gateway/gateway.go:2235-2272 | a path of any length is accepted if and only if the schema has a property or list for each segment in turn, up to a list whose items have no schema |
| `TranscodeSchema.ProjectSoundness` | gateway/transcode.go:1112-1164 | what is projected out of a list has the shape that the lookup has in each of its items |
| `TranscodeSchema.ProjectionIsHits` | gateway/transcode.go:1134-1152 | a projection is what the path finds in the items, item by item and in their order, and nothing else |
| `JsonPaths.GetPut` | gateway/transcode.go:1166-1206 | reading a written path gives the value written |
| `JsonPaths.PutGet` | gateway/transcode.go:1166-1206 | writing back what is there changes nothing |
| `JsonPaths.PutPut` | gateway/transcode.go:1166-1206 | the last write to a path wins |
| `JsonPaths.PutFrame` | gateway/transcode.go:1166-1206 | a write changes neither what an incomparable path reads nor whether it can be written |
| `JsonPaths.PutsCommute` | gateway/transcode.go:1166-1206 | incomparable writes commute |
| `JsonPaths.PutBelow` | gateway/transcode.go:1166-1206 | a write at or below one already made goes into the value that was written |
| `JsonPaths.PutAbove` | gateway/transcode.go:1166-1206 | a write at or above one already made leaves nothing of it |
| `JsonPaths.ComparableWritesCommuteExactly` | gateway/transcode.go:1166-1206 | two writes of which one path is a prefix of the other commute exactly when the upper value already holds the lower one |
| `JsonPaths.TwoWritesCommuteExactly` | gateway/transcode.go:1063-1085 | any two writes that fit commute exactly when one writes nothing, their paths are incomparable, or one brings the other along |
| `JsonPaths.StepsReadBack` | gateway/transcode.go:1063-1085 | after any writes to incomparable paths each path reads back its own value |
| `JsonPaths.OrderDoesNotMatter` | gateway/transcode.go:1063-1085 | any permutation of such writes gives the same document |
| `TranscodeMapping.BodyIsAcceptedExactly` | gateway/transcode.go:1255-1292 | which bodies are accepted, with which error the others are refused, and what object an accepted one leaves to search |
| `TranscodeMapping.SearchedBodyIsValidatedBody` | gateway/transcode.go:1255-1292 | for a parsed body, the document searched is the document validated exactly when the body is an object and no body field is configured |
| `TranscodeMapping.PromiseIsKeptExactlyByValidObjects` | gateway/transcode.go:1112-1164 | every accepted path into an object keeps the schema's promise if and only if the value validator accepts the object |
| `TranscodeMapping.BodyIsSoundExactly` | gateway/transcode.go:999-1006 | for any request and configuration whose body is accepted, every accepted path keeps the schema's promise exactly when: the body is an object without a body field; or it is absent or not merged and nothing is required; or it lies under a body field, nothing else is required and it passes for that property; or the schema's kind is not checked |
| `TranscodeMapping.EmptyBodyBreaksSoundness` | gateway/transcode.go:1255-1262 | leaving out an optional body with a required name makes the accepted path `body` find an object the schema does not allow |
| `TranscodeMapping.BodySourceIsSound` | gateway/transcode.go:1087-1110 | for any accepted body and an accepted path rooted at `body` the mapping source never errors, and in a sound body it finds what the schema promises |
| `TranscodeMapping.BodySourceHasItsKind` | gateway/transcode.go:1087-1110 | the same with what is found named by its JSON type |
| `TranscodeMapping.SourceReadsItsRoot` | gateway/transcode.go:1087-1110 | a path written as a root and names is looked up in the body, the path, the query or the header, as its root says |
| `TranscodeMapping.SourcePathIsAcceptedExactly` | gateway/gateway.go:2351-2373 | the configuration check accepts a source path exactly when it starts at a root, bare or with `[]`, and no segment is blank |
| `TranscodeMapping.AcceptedSourceIsBrokenExactlyAtTheRoot` | gateway/transcode.go:1087-1110 | an accepted source path errors at run time exactly when its first segment is not a bare root |
| `TranscodeMapping.ProjectedRootIsAccepted` | gateway/gateway.go:2351-2373 | `body[]` is such a path |
| `TranscodeMapping.BodyFieldBreaksSoundness` | gateway/transcode.go:1255-1292 | an instance: under a body field an accepted path finds a value of the wrong shape |
| `TranscodeMapping.LookupIsGet` | gateway/transcode.go:1112-1164 | on plain paths the lookup reads by name |
| `TranscodeMapping.ArraySegmentLookup` | gateway/transcode.go:1112-1164 | a `[]` segment after names finds the list of that name, or projects the rest of the path over its items |
| `TranscodeMapping.SetTargetIsPut` | gateway/transcode.go:1166-1206 | on plain targets the write is writing by name and fails only on a conflict |
| `TranscodeMapping.TargetIsPut` | gateway/transcode.go:1166-1206 | a write to any target is writing by name, the `[]` at its end left off, and fails only in a conflict |
| `TranscodeMapping.OnlyTargetsAreWritten` | gateway/transcode.go:1166-1206 | any other target, with a blank segment or a `[]` before its end, fails |
| `TranscodeMapping.AppliedAllIsSteps` | gateway/transcode.go:1063-1085 | building the payload makes the writes of the mappings in order |
| `TranscodeMapping.ProjectionReadsBack` | gateway/transcode.go:1063-1085 | with readable sources and plain targets none a prefix of another, building succeeds and each target reads back its source value or default |
| `TranscodeMapping.TargetReadsSourceOrDefault` | gateway/transcode.go:1063-1085 | each target reads back what its source found, else its default, else nothing |
| `TranscodeMapping.BlankTargetIsSkipped` | gateway/transcode.go:1066-1074 | a mapping with a blank target is skipped whatever its source; any other stops the build when its source is broken |
| `TranscodeMapping.ProjectionHoldsNothingElse` | gateway/transcode.go:1063-1085 | a path away from every target is missing in the payload |
| `TranscodeMapping.ReorderingKeepsPayload` | gateway/transcode.go:1063-1085 | reordering such mappings gives the same payload |
| `TranscodeMapping.TwoMappingsCommuteExactly` | gateway/transcode.go:1063-1085 | two mappings with readable sources and plain targets can be exchanged exactly when one contributes nothing, neither target is a prefix of the other, or the shorter one's value holds the other's at the rest of the path |
| `TranscodeMapping.PrefixTargetsDependOnOrder` | gateway/transcode.go:1166-1206 | an instance: with a scalar at the shorter target the order decides between a conflict and a payload |
| `PayloadStore.LookupMatches` | gateway/transcode.go:1112-1164 | a source path followed through the objects in memory fails, finds nothing or finds as the lookup on values does, and what it finds is part of the document itself, projections included |
| `PayloadStore.HoldsKept` | gateway/transcode.go:1166-1206 | what a slot stands for depends only on the objects it reaches |
| `PayloadStore.FieldWritten` | gateway/transcode.go:1166-1206 | in a payload that shares no object between fields, replacing one field by something new changes that field's value alone, and sharing stays absent |
| `PayloadStore.WalkStaysInside` | gateway/transcode.go:1166-1206 | the walk changes no object that the payload does not reach, even when it fails |
| `PayloadStore.WalkFails` | gateway/transcode.go:1174-1202 | the walk fails with the error of the write on values |
| `PayloadStore.WalkWrites` | gateway/transcode.go:1166-1206 | the walk and the store of a new value at its end give the payload of the write on values, and the payload takes in no object that was there outside it |
| `PayloadStore.DocumentKept` | gateway/transcode.go:1166-1206 | a document that shares no object with the payload keeps its value under such a write, and still shares none |
| `PayloadStore.Payload.Clone` | gateway/gateway.go:2375-2392 | the copy stands for the same value, none of its objects was there before, and no object that was there has changed |
| `PayloadStore.Payload.FollowPath` | gateway/transcode.go:1171-1204 | the loop follows the walk, making the objects it makes |
| `PayloadStore.Payload.WriteTarget` | gateway/transcode.go:1166-1206 | for a value found in another document, a copy is stored where the walk ends, which gives the payload, or the error, of the write on values; only objects of the payload change and only new ones enter it |
| `PayloadStore.PayloadFromMappings` | gateway/transcode.go:1063-1085 | with sources and defaults given as objects in memory, the payload built in place is the one that the mappings describe, its error is the first one, and every document, those sources and defaults among them, keeps its value |
| `PayloadStore.UncopiedObjectIsShared` | gateway/transcode.go:1186-1190 | what the copy is for: with the found object itself stored, the mappings `body.x` to `a` and any value to `a.k` make the source path `body.x.k` find that value |
| `RecencyList.EvictionIsLru` | cache/cache.go:658-682 | after eviction with a positive limit the size is within it, nothing expired remains, and a live entry is removed only when the limit is full of more recently used live ones |
| `RecencyList.StoredKeySurvives` | cache/cache.go:352-362 | a key just stored is the most recent entry unless it is already expired |
| `RecencyList.StoreEvictsLeastRecentlyUsed` | cache/cache.go:658-682 | in any run that ends with a store, a live entry of another key is lost only when the limit is full and every key that remains was last used later |
| `RecencyList.RunIsInRecencyOrder` | cache/cache.go:352-389 | after any run of operations the list is in order of last use and within a positive limit |
| `RecencyList.EntriesHaveOrigins` | cache/cache.go:352-389 | in any run an entry of the cache is exactly the one that the last store of its key stored; no deletion of the key and no clearing followed, and no store, nor use of the key, came when both its deadlines had passed |
| `RecencyList.UnlimitedRunHoldsExactly` | cache/cache.go:352-389 | without a limit those are exactly the entries that the cache holds |
| `RecencyList.LostExactlyWhenRemoved` | cache/cache.go:437-460 | an operation other than a store loses an entry exactly when it deletes its key, clears the cache, or uses the key when both deadlines have passed |
| `Cache.RepresentsKey` | cache/cache.go:528-561 | the stamped map holds the keys and entries of the list, with stamps between one and the counter |
| `Cache.StampsIncrease` | cache/cache.go:684-705 | stamps increase strictly along the list, so they are distinct |
| `Cache.OldestIsFirst` | cache/cache.go:668-681 | the entry with the least stamp is the first of the list |
| `Cache.RebaseRepresents` | cache/cache.go:684-705 | restamping in stamp order keeps the order of all live entries |
| `Cache.KeysByStamp` | cache/cache.go:687-695 | the keys sorted by stamp are the keys of the list in order |
| `Cache.Cache.NextAccessOrder` | cache/cache.go:684-705 | gives a stamp above every live one and keeps the order, also when the counter is at its maximum and starts again |
| `Cache.Cache.Rebase` | cache/cache.go:686-702 | keeps the list and sets the counter to its length |
| `Cache.Cache.Evict` | cache/cache.go:658-682 | purge loop and oldest-first loop do what eviction does to the list |
| `Cache.Cache.StoreLocked` | cache/cache.go:352-362 | storing does what a store does to the list, eviction included |
| `Cache.Cache.Set` | cache/cache.go:352-362 | the same, and nothing on a disabled cache or an empty key |
| `Cache.Cache.Get` | cache/cache.go:364-389 | hits exactly on an entry that is not expired, returns its value and moves it to the recent end; an expired entry is removed; not-found markers are hits |
| `Cache.Cache.Lookup` | cache/cache.go:528-561 | tells fresh, stale, not-found and absent apart and moves every hit to the recent end |
| `Cache.Cache.StoreLoaded` | cache/cache.go:563-595 | a loaded value or, where those are cached, a not-found marker is stored like any other entry |
| `Cache.Cache.Delete` | cache/cache.go:437-449 | removes the key from the list and says whether it was there |
| `Cache.Cache.Clear` | cache/cache.go:451-460 | empties the list |
| `Cache.Cache.Len` | cache/cache.go:462-469 | is the length of the list |
| `ConnPool.Pool.TryGetIdleOrReserve` | rpc/connpool.go:175-202 | the loop performs the step: the last idle connection that has not expired, or a reservation, or a refusal, with expired ones closed |
| `ConnPool.Pool.DialReserved` | rpc/connpool.go:204-216 | performs the step that gives the reservation up or makes it a connection in use |
| `ConnPool.Pool.SwapReleased` | rpc/connpool.go:444-456 | performs the compare-and-swap step and says whether it won |
| `ConnPool.Pool.ReleaseLocked` | rpc/connpool.go:292-309 | performs the release step and says exactly when the caller must close |
| `ConnPool.Pool.CloseLocked` | rpc/connpool.go:236-264 | performs the closing step and hands over the idle connections the first time |
| `ConnPool.Pool.CloseAll` | rpc/connpool.go:255-259 | after the loop each connection's close count has risen by as often as it is listed, and the listed ones are gone |
| `ConnPool.ClosingsAreSteps` | rpc/connpool.go:255-259 | that loop over connections to be closed is a run of closing steps, one for each in order |
| `ConnPool.ClosingPoolClosesIdle` | rpc/connpool.go:236-264 | from any reachable state closing the pool closes every idle connection once more and changes no other connection's place or close count |
| `ConnPool.TryGetTakesNewestLive` | rpc/connpool.go:175-202 | an open pool hands out the live connection returned last and closes those returned after it; it reserves a dial only when none is live, and makes the caller wait exactly when the limit is then full |
| `ConnPool.StepKeepsInv` | rpc/connpool.go:175-309 | every step keeps the accounting and exclusivity invariant |
| `ConnPool.InvKnowsIdle` | rpc/connpool.go:175-202 | under the invariant every idle connection has its record, so a get is possible in every reachable state |
| `ConnPool.PoolAccounting` | rpc/connpool.go:175-216 | in every interleaving active = idle + checked out + reserved dials, within its limit as idle is, and created = closed + idle + checked out |
| `ConnPool.PoolExclusivity` | rpc/connpool.go:292-309 | in every interleaving a connection in use has one user, is not idle and not closed, and none is closed twice |
| `ConnPool.ClosedPoolTakesNothingBack` | rpc/connpool.go:292-309 | in a closed pool no reservation succeeds and every release closes its connection |
| `ConnPool.ClosedPoolStaysClosed` | rpc/connpool.go:236-264 | from the step that closes the pool on, every run keeps it closed and without idle connections, and only dials then under way can still create connections |
| `ConnPool.ClosedPoolQuiesces` | rpc/connpool.go:236-264 | in every run of a closed pool, when users and dials are done nothing is active and created = closed; when the closings are done each connection was closed exactly once |
| `ConnPool.StaleCloseSharesConnection` | rpc/connpool.go:193-193 | a second close through a stale handle makes a connection idle while in use exactly when its release would keep it |
| `ConnPool.StaleHandleIsReachable` | rpc/connpool.go:193-193 | a run to such a handle, for every configuration that keeps idle connections |
| `ConnPoolRuns.TimesAreSteps` | rpc/connpool.go:292-299 | in any run a connection's times are those of the dial that made it and of its last release |
| `ConnPoolRuns.GetIsToldBySteps` | rpc/connpool.go:175-204 | an open pool hands out the connection released last of those dialled and released recently enough, else makes a place for a dial, else the caller waits |
| `ConnPoolRuns.ReleaseKeepsExactly` | rpc/connpool.go:292-310 | a release keeps the connection exactly when it was closed and not discarded, the pool is open and not in short mode, its lifetime has not passed and fewer are idle than may be; else it is closed |
| `ConnPoolRuns.DiscardedIsNeverReused` | rpc/connpool.go:451-456 | from the discard that released it on, in any run, a connection is never idle or in use again |
| `DeliveryBooks.StepKeepsFlow` | rpc/mux_export_delivery.go:344-471 | every step keeps each event in exactly one place |
| `DeliveryBooks.StepKeepsLedger` | rpc/mux_export_delivery.go:344-471 | every step keeps the books: sent = queued + in hand + delivered, and each counter is the number of its outcomes |
| `DeliveryCalls.StepKeepsCalls` | rpc/mux_export_delivery.go:412-471 | every step keeps at most one live call, in the slot, and `hungCalls` with what a timeout has yet to add equal to the leaks with what the call has yet to give back |
| `DeliveryCalls.StepKeepsPanicLedger` | rpc/mux_export_delivery.go:436-470 | every step keeps panics = panicked outcomes + late panics + those reported and not yet seen |
| `DeliveryRuns.RunKeepsInv` | rpc/mux_export_delivery.go:344-529 | all invariants hold in every reachable state |
| `DeliveryRuns.EventIsInOnePlace` | rpc/mux_export_delivery.go:344-404 | in every interleaving an event is with one producer, in the queue, in hand, turned away, or delivered |
| `DeliveryRuns.QueueIsBoundedFifo` | rpc/mux_export_delivery.go:370-404 | in every interleaving the queue stays within its size, and the events sent are those taken, in that order, followed by the queue |
| `DeliveryRuns.OutcomeIsFinal` | rpc/mux_export_delivery.go:412-471 | once delivered or turned away an event keeps that outcome for the rest of the run |
| `DeliveryRuns.DeliveryConservation` | rpc/mux_export_delivery.go:344-471 | at any moment accepted events are queued, in hand or have an outcome, and each counter counts its outcomes |
| `DeliveryRuns.CloseDeliversEverything` | rpc/mux_export_delivery.go:516-529 | when Close has returned the queue is empty, every event has its outcome, and accepted is the sum of the outcomes |
| `DeliveryCalls.StepKeepsLate` | rpc/mux_export_delivery.go:436-470 | every step keeps the count of late panics equal to the number of calls that both timed out and panicked |
| `DeliveryRuns.CountersAddUpExactly` | rpc/mux_export_delivery.go:436-470 | the counters exceed accepted by the number of calls that both timed out and panicked, so they add up exactly when there is none |
| `DeliveryRuns.LatePanicIsCountedTwice` | rpc/mux_export_delivery.go:436-470 | a run in which one accepted event is on the books twice |
| `DeliveryRuns.OneCallAtATime` | rpc/mux_export_delivery.go:421-444 | at most one exporter call is live in any interleaving, hung calls included, and it holds the slot |
| `DeliveryRuns.HungCallsCountLeaks` | rpc/mux_export_delivery.go:436-470 | `hungCalls` is the leaks, plus one if a timed-out call has yet to give back, less one if a timeout is flagged and not yet counted; one below and one above the leaks in exactly those windows |
| `DeliveryRuns.HungCallsCanBeNegative` | rpc/mux_export_delivery.go:436-466 | a run in which it is below zero |
| `DeliveryRuns.StarvedForever` | rpc/mux_export_delivery.go:412-420 | once leaks fill the hung-call limit no exporter call ever starts again |
| `DeliveryRuns.StarvationIsReachable` | rpc/mux_export_delivery.go:436-470 | a run that gets there under the default limit |
| `DeliveryRuns.OpenMeansFailures` | rpc/mux_export_delivery.go:564-591 | while the breaker is open, the consecutive failures have reached the threshold exactly when the worker is not between the first two stores of a success |
| `DeliveryRuns.NoCallBeforeCooldown` | rpc/mux_export_delivery.go:531-545 | in any run no exporter call starts before the full cooldown has passed since the breaker was opened, unless a forced probe stored it closed in between |
| `DeliveryRuns.FailedProbeRearms` | rpc/mux_export_delivery.go:578-591 | a failure recorded while the breaker is open moves its opening time to that failure, and a recorded failure leaves it open exactly at the threshold |
| `DeliveryRuns.BlockedUntilForced` | rpc/mux_export_delivery.go:412-420 | an open breaker whose half-open flag is taken with no delivery under way starts no call until a probe is forced |
| `DeliveryRuns.BlockedExactlyByHungProbe` | rpc/mux_export_delivery.go:412-420 | the breaker gets into that state exactly by a half-open probe turned away at the hung-call limit |
| `DeliveryExporter.BlockingIsReachable` | rpc/mux_export_delivery.go:412-420 | for every failure threshold, a run that gets there under the default hung-call limit |
| `DeliveryExporter.RunsExport` | rpc/mux_export_delivery.go:412-471 | a pass of `export` from any reachable state is a run of single steps of the worker and its call that ends in the state computed for it |
| `DeliveryExporter.ExportFinishes` | rpc/mux_export_delivery.go:412-471 | such a pass leaves the worker waiting and its event delivered with the outcome that the breaker, the hung-call limit, the slot and the call decide, on the books as that and nothing else |
| `DeliveryExporter.RunsEvent` | rpc/mux_export_delivery.go:344-379 | offering an event is a run that ends with it queued and accepted exactly when every admission check lets it by, else turned away and counted as dropped, or ignored once closed |
| `DeliveryExporter.Exporter.Export` | rpc/mux_export_delivery.go:412-471 | the body of `export`: the object stays on a run of steps, and the event is finished with the outcome the gates decide |
| `DeliveryExporter.Exporter.Deliver` | rpc/mux_export_delivery.go:381-392 | one turn of the worker: the oldest event leaves the queue and is finished |
| `DeliveryExporter.Exporter.Drain` | rpc/mux_export_delivery.go:394-404 | the loop ends with an empty queue, every queued event delivered, and each counted once |
| `DeliveryExporter.Exporter.Close` | rpc/mux_export_delivery.go:516-529 | the first call drains everything and the counters then account for every accepted event; further calls change nothing |
| `DeliveryExporter.Exporter.Offer` | rpc/mux_export_delivery.go:344-379 | queues the event at the end exactly when all admission checks pass, counts it as accepted or dropped, and touches neither breaker nor calls |
| `DeliveryExporter.Exporter.FinishHungCall` | rpc/mux_export_delivery.go:436-454 | a call that comes back after its timeout gives back the slot and its share of `hungCalls`, counts a panic, and changes neither events nor breaker |
| `DeliveryExporter.Exporter.ForceProbe` | rpc/mux_export_delivery.go:98-105 | from a blocked breaker, which drops every event, to one that hands the next event to the exporter unless the hung-call limit or the slot forbids it; nothing but the breaker changes |
| `Idempotency.StepKeepsInv` | rest/idempotency.go:164-214 | every step keeps the invariant of entries, phases and channels |
| `Idempotency.InvKnows` | rest/idempotency.go:164-214 | under the invariant every key leads to an entry, so each section can run in every reachable state |
| `Idempotency.AtMostOneRuns` | rest/idempotency.go:94-122 | in every interleaving at most one request per key is between a fresh Reserve and its Complete |
| `Idempotency.DoneIsClosedOnce` | rest/idempotency.go:198-214 | each Complete closes the channel of its own entry for the first and only time |
| `Idempotency.ReplayWasKept` | rest/idempotency.go:179-187 | every replay is a response kept for that key |
| `Idempotency.HandlerRunsOncePerKey` | rest/idempotency.go:94-122 | as long as a key's entry neither expires nor is released, whatever happens to other keys, its handler runs at most once, no waiter is turned away, and every replay was kept for the waiter's own fingerprint |
| `IdempotencyTimes.HandlerRunsOnceInTime` | rest/idempotency.go:94-122 | the same told by the steps alone: while every response for the key is kept and nothing is reserved after one has expired |
| `IdempotencyTimes.RepeatInTimeIsReplayed` | rest/idempotency.go:164-187 | with time that does not run backwards, a repeat within the time to live of a kept response does not run the handler: with the same fingerprint it can at once be served that response, with another it is a conflict |
| `IdempotencyTimes.FirstLateRepeatIsFresh` | rest/idempotency.go:167-196 | the first repeat after the time to live reserves the key afresh |
| `Idempotency.EntriesHaveOrigins` | rest/idempotency.go:164-214 | in every run a key's entry was made by the last fresh reservation, whose request still runs or kept what the entry holds |
| `Idempotency.ReplayIsOwnExactly` | rest/idempotency.go:179-187 | a waiter is served what the last request to reserve the key afresh kept, so the response to its own fingerprint exactly when that request had it |
| `Idempotency.ExpiredWaiterGetsForeignResponse` | rest/idempotency.go:179-187 | a run without any release in which an expiry makes a waiter receive the response to another fingerprint |
| `Idempotency.ReleasedWaiterGetsForeignResponse` | rest/idempotency.go:179-187 | a run with a release in which a waiter is served the response to another fingerprint |
| `Idempotency.MemoryStore.ReserveLocked` | rest/idempotency.go:164-196 | the first locked section performs the reserve step |
| `Idempotency.MemoryStore.WakeLocked` | rest/idempotency.go:179-187 | the second locked section performs the wake step |
| `Idempotency.MemoryStore.CompleteLocked` | rest/idempotency.go:198-214 | the locked section performs the complete step |
| `Idempotency.MemoryStore.Purge` | rest/idempotency.go:165-171 | the purge loop removes exactly the expired entries |
| `WebSocket.FrameReadsBack` | rest/websocket.go:299-340 | a final masked frame in any length form that fits, with any reserved bits, is read back with opcode and payload intact and the rest left; over the limit it is refused |
| `WebSocket.StreamReadsBack` | rest/websocket.go:299-340 | any sequence of such frames is read back frame by frame and the rest of the stream is untouched |
| `WebSocket.AcceptedIsFrame` | rest/websocket.go:299-340 | a message comes only from such a frame at the head of the stream, within the limit, and the reader takes exactly its bytes |
| `WebSocket.LaterBytesDoNotMatter` | rest/websocket.go:299-340 | bytes that arrive later do not change a message that was read |
| `WebSocket.MaskedTwice` | rest/websocket.go:336-338 | masking twice gives the payload back |
| `WebSocketBytes.MaskFlipsBits` | rest/websocket.go:336-338 | masking flips, in byte i of a payload, the bits that are set in byte i modulo 4 of the mask, and no others |
| `WebSocket.BigEndianReadsBack` | rest/websocket.go:313-325 | an extended length that fits its bytes is read back |
| `WebSocket.BigEndianWritesBack` | rest/websocket.go:313-325 | an extended length field is the encoding of the length read from it |
| `WebSocketBytes.FirstByteCountsMost` | rest/websocket.go:313-325 | the first byte of a length counts most |
| `WebSocketBytes.ClientFrameOnTheWire` | rest/websocket.go:299-340 | a client frame byte by byte: flags and opcode, mask bit and length in one of its three forms, mask, masked payload |
| `WebSocketBytes.HeaderIsRefusedExactly` | rest/websocket.go:299-312 | a frame is refused for its flags exactly when it is not final or not masked, and a stream that ends in the header gives the end-of-file errors |
| `WebSocketBytes.CutFrameIsNotRead` | rest/websocket.go:299-340 | a frame that is cut short anywhere is not read |
| `WebSocketBytes.LimitIsExact` | rest/websocket.go:326-330 | a frame is read exactly when the limit is positive and its payload is not longer |
| `WebSocket.Unmask` | rest/websocket.go:336-338 | the in-place loop masks the whole payload |
| `WebSocket.WebSocketConn.ReadNextFrame` | rest/websocket.go:299-340 | the reader consumes from the stream and answers as the specification of a read, each error included |
| `WebSocket.ServerFrameDecodes` | rest/websocket.go:342-378 | server frames are final, use the shortest length form, and decode back to their payload whatever follows |
| `WebSocket.OpcodeIsTypeExactly` | rest/websocket.go:342-348 | a client sees the message type as opcode exactly when the type is below 16 |
| `WebSocket.MessageTypeIsOpcode` | rest/websocket.go:201-216 | a frame of one of the five message types decodes to that type as opcode with no reserved bits, whatever follows |
| `WebSocketBytes.ServerMessageOnTheWire` | rest/websocket.go:342-378 | a message byte by byte: final bit and type, length without mask bit in as few bytes as hold it, payload |
| `WebSocket.WebSocketConn.WriteMessage` | rest/websocket.go:201-216 | for the five message types what is written decodes to the message, for any other type nothing is written |
| `WebSocket.WebSocketConn.WriteFrame` | rest/websocket.go:342-378 | appends exactly the server frame, or nothing for a type outside a byte |
| `MuxCandidate.Parse` | rpc/mux_candidate.go:537-564 | the loop over fields computes `Parsed`, errors included |
| `MuxCandidate.EffectiveIsPolicy` | rpc/mux_candidate.go:583-600 | an effective policy has a protocol, a frame codec and a payload codec that are known, and a positive frame limit, and its message limit is not positive only by overflow |
| `MuxPolicies.EffectivePolicyIs` | rpc/mux_candidate.go:579-600 | what each setting comes to: protocol trimmed or default, codecs by name whatever their case, limits of 4 MiB and sixteen times the frame limit modulo 2^64 |
| `MuxPolicies.PrefaceIsText` | rpc/mux_candidate.go:524-536 | the preface of a policy, written out |
| `MuxCandidate.ScanReadsBack` | rpc/mux_candidate.go:553-561 | a printed 64-bit number is read back |
| `MuxCandidate.LineReadsBack` | rpc/mux_candidate.go:537-564 | parsing a printed policy without white space in its protocol gives the policy back |
| `MuxCandidate.PrefaceReadsBack` | rpc/mux_candidate.go:499-535 | reading and parsing a printed preface within the size limit gives exactly the policy and leaves what follows the line |
| `MuxCandidate.PeerProtocolIsWord` | rpc/mux_candidate.go:499-564 | whatever is read, the protocol named has no white space |
| `MuxCandidate.RoundTripExactly` | rpc/mux_candidate.go:499-535 | within the size limit the round trip holds exactly for protocols without white space |
| `MuxCandidate.AcceptsExactly` | rpc/mux_candidate.go:462-497 | one side accepts the other exactly when the policies are equal, or differ only in a message limit that overflowed on the other side |
| `MuxPolicies.FieldsSay` | rpc/mux_candidate.go:538-564 | a line says for each key what its last entry says, other fields are passed over, and a limit that is no number spoils it |
| `MuxPolicies.PrefaceIsAcceptedExactly` | rpc/mux_candidate.go:462-497 | any peer's line, complete or not, is accepted exactly when it names the same protocol, its limits are numbers, and what it says of codecs and positive limits is what this side has |
| `MuxPolicies.ReadingFailsExactly` | rpc/mux_candidate.go:499-522 | reading fails exactly when the stream ends before a newline or has none among its first 512 bytes; a line without the prefix is a mismatch |
| `MuxCandidate.BothAcceptExactlyEqualPolicies` | rpc/mux_candidate.go:462-497 | both sides accept exactly when their effective policies are equal, overflow or not |
| `MuxCandidate.AcceptsExactlyEqualPolicies` | rpc/mux_candidate.go:566-581 | without overflow one side's verdict is equality already |
| `MuxCandidate.SmallFramesDoNotOverflow` | rpc/mux_candidate.go:589-592 | frame limits below 2^59 do not overflow |
| `MuxCandidate.OverflowIsOneSided` | rpc/mux_candidate.go:566-600 | at 2^59 one side accepts and the other rejects |
| `MuxCandidate.SpacedProtocolNeverAgrees` | rpc/mux_candidate.go:489-491 | nobody accepts a peer under a protocol with white space |
| `MuxCandidate.Conn.ReadPreface` | rpc/mux_candidate.go:499-522 | the byte-by-byte loop computes the specification of a read and consumes exactly its bytes |
| `MuxCandidate.Conn.Exchange` | rpc/mux_candidate.go:462-497 | writes the preface if it fits, and answers as one side of the exchange |
| `Routes.NormalPrefixIsNormal` | gateway/gateway.go:2805-2814 | a normalised prefix is the root or starts with a slash and does not end in one |
| `RouteOperations.NormalPrefixKeepsCore` | gateway/gateway.go:2805-2814 | white space around a prefix and slashes after it are dropped, a slash is put before it if there is none, and all else is kept; nothing but slashes is the root |
| `RouteOperations.NormalVerbIsUpper` | gateway/gateway.go:1924-1924 | a method is trimmed and put in upper case, and not changed otherwise |
| `Routes.MatchIsSegmentPrefix` | gateway/gateway.go:2798-2803 | on normal prefixes the textual test is segment-wise: the path's segments begin with those of the prefix |
| `Routes.EquallyLongMatchesAreEqual` | gateway/gateway.go:2798-2803 | two normal prefixes of one length that match a path are equal |
| `Routes.StableSortedIsStableSort` | gateway/gateway.go:1973-1977 | the result is sorted by decreasing prefix length and keeps the order of routes of equal length |
| `Routes.StableSortIsUnique` | gateway/gateway.go:1973-1977 | that promise determines the result |
| `Routes.RunKeepsOrder` | gateway/gateway.go:1168-1265 | after any run of operations the table is sorted and its prefixes are normal |
| `Routes.FirstMatchIsLongest` | gateway/gateway.go:1757-1769 | after any run of operations the first match is exactly the longest matching prefix for the method, and of several with that prefix the first |
| `RouteOperations.LookupIsLongestCandidate` | gateway/gateway.go:1757-1769 | the same in terms of methods and segments alone: a route for the method or for any, whose prefix's segments begin the path's |
| `Routes.SortKeepsKeys` | gateway/gateway.go:1973-1977 | sorting neither makes nor hides a repeated key |
| `Routes.RunKeepsKeys` | gateway/gateway.go:1168-1265 | keys stay unique over any run whose replacements have unique keys |
| `Routes.ReplaceKeepsKeysExactly` | gateway/gateway.go:1250-1265 | after a replacement keys are unique exactly when those of the given routes are |
| `Routes.StoreIsUpdate` | gateway/gateway.go:1207-1225 | storing a route sets its key and keeps every other |
| `Routes.RemoveIsDelete` | gateway/gateway.go:1228-1247 | removing a route removes its key and nothing else |
| `Routes.UpdateKeepsPlaces` | gateway/gateway.go:1187-1204 | replacing a route leaves every route where it is |
| `RouteOperations.AddIsInsertion` | gateway/gateway.go:1168-1184 | fails exactly on a refused route or a key that is there, else adds the route and keeps all others |
| `RouteOperations.UpdateIsReplacement` | gateway/gateway.go:1187-1204 | fails exactly on a refused route or a key that is not there, else replaces the route of that key alone |
| `RouteOperations.UpsertIsStore` | gateway/gateway.go:1207-1225 | fails exactly on a refused route, else leaves the route under its key and every other route |
| `RouteOperations.RemoveIsDeletion` | gateway/gateway.go:1228-1247 | fails exactly on a key that is not there, else removes the route of that key alone |
| `RouteOperations.SetIsExactlyTheGiven` | gateway/gateway.go:1250-1265 | fails exactly on an empty list or a refused route, else leaves the given routes, each normalised, as often as given |
| `Routes.RouteIndex` | gateway/gateway.go:1979-1986 | finds the first route with the key, or the length of the table when there is none |
| `Routes.Gateway.AddRoute` | gateway/gateway.go:1168-1184 | performs the operation on the table, with its error |
| `Routes.Gateway.UpdateRoute` | gateway/gateway.go:1187-1204 | performs the operation on the table, with its error |
| `Routes.Gateway.UpsertRoute` | gateway/gateway.go:1207-1225 | performs the operation on the table, with its error |
| `Routes.Gateway.RemoveRoute` | gateway/gateway.go:1228-1247 | performs the operation on the table and says whether the route was there |
| `Routes.Gateway.SetRoutes` | gateway/gateway.go:1250-1265 | performs the operation on the table, with the first error of the given routes |
| `Routes.Gateway.SortRoutes` | gateway/gateway.go:1973-1977 | sorts stably |
| `Routes.Gateway.Match` | gateway/gateway.go:1757-1769 | finds the first route for the method whose prefix matches, and none only when there is none |

## Left out

- Unicode: `strings.TrimSpace` and `strings.Fields` also treat non-ASCII white space; here only ASCII white space counts.
- Credits and counters other than the cache stamp and the message limit: unbounded integers here, 64-bit in the code.
- Weight tables: normalisation of the configured weights is not modelled; any table of weights is allowed.
- Round robin, power-of-two-choices, passive health and the middleware around the balancers: easy members.
- Parsing and printing of JSON text, and path, query and header sources beyond their lookup.
- PayloadStore.Payload.Clone: a list is a value, because the code never changes one in place; copying a list copies the objects in it.
- Cache single flight, refresh of stale entries, TTL jitter and statistics: the loader's answer and the deadlines are given.
- Cache.Cache.Set: requires the length of the list to be below 2^63, because a larger map does not fit in memory.
- ConnPool: waiting, health checks and dial time-outs; dials succeed or fail as they please.
- Delivery: error-budget arithmetic (its verdict is an input), latency records, metrics and the subprocess exporter.
- DeliveryExporter.Exporter.Export: the methods of the object run one after the other, each on its own, and a call's time-out or answer is given; all other interleavings are covered by the theorems over runs.
- Idempotency: the store on a key-value service, request hashing and the HTTP side of the middleware.
- WebSocket.WebSocketConn.WriteFrame: write errors, flushing and deadlines, so WriteMessage has none either; also the upgrade handshake.
- MuxCandidate.ScanReadsBack: numbers with a base prefix, a leading zero or an underscore are left to a parameter.
- MuxCandidate.Conn.Exchange: write errors and deadlines; TLS and ALPN come before it.
- Routes: fields of a route that matching does not look at; their normalisation and checks are a parameter.
- HTTP proxying, TLS, WebSocket tunnelling, gRPC transcoding, OpenAPI import, admin endpoints, configuration loading and the command line.
- The mux transport, rate limits, retry and the core breaker.
