# Verified model of bent

bent is a control plane for Envoy sidecars. It polls a provider for services per node, compiles them into clusters,
load assignments, routes and listeners for every sidecar, stores one versioned snapshot per node in a cache, and
pushes it over xDS streams. This project models the two halves of that work and proves what they are for:

- **The push protocol** (`pkg/cache`, `pkg/server`): any number of streams, one cache and one updater, as a state
  machine with interleaved steps. Proved over every run: no watch leaks, no channel is sent to twice, responses are
  exact, nonces are disciplined, no update is lost, an acknowledging client converges after at most two more
  responses per type, and no interleaving of the cache's lock-level steps deadlocks.
- **The mesh compiler** (`pkg/provider`): every order in which Go may visit the provider's map. Proved for every
  provider and order: two-hop routing from any sidecar to any endpoint, conservation of endpoints as multisets,
  unique virtual hosts, and which snapshots are consistent.
- **Both together**: what the updater stores is the compiled mesh, and a converged sidecar has been told the part of it
  that it asks for.

The program's mutable objects are classes (`CacheObject.Cache`, `ServerObject.StreamLoop`, `MeshObject.Node`,
`MeshObject.Listener`), whose methods are proved against relations and functions on values; the theorems are about
those. Loops over Go maps pick an arbitrary element each time.

| file | content |
|---|---|
| `Xds.dfy` | resources, requests, snapshots, indexing, the consistency check |
| `SnapshotCache.dfy`, `CacheObject.dfy` | the cache as relations between states, and as the object that implements them |
| `Nonces.dfy`, `Protocol.dfy`, `ServerObject.dfy` | decimal nonces, the state machine of streams, and one stream's loop |
| `Exit.dfy` | how a stream ends |
| `Safety.dfy`, `Delivery.dfy` | invariants of all runs; lost updates |
| `Convergence.dfy`, `Content.dfy`, `Renaming.dfy` | a client that acknowledges every response; what it holds at rest; a client that changes its names |
| `Locks.dfy` | the locking of the cache, step by step |
| `Mesh.dfy`, `MeshObject.dfy`, `Routing.dfy` | the compiler on values, as the program runs it, and what its output means |
| `Config.dfy`, `Settings.dfy` | what the program reads out of annotations; what clusters and filters then say |
| `Updater.dfy`, `Versions.dfy` | one pass of the updater; what its versions settle |
| `Agreement.dfy`, `Collisions.dfy` | when two compilations agree; distinct snapshots of one version |
| `EndToEnd.dfy` | both halves joined |

`dafny verify dfyconfig.toml` checks everything.

Where the code and its documentation disagree, the model follows the code:

- `pkg/cache/simple.go:44-45` promises that storing a snapshot answers all open watches with another version. In ADS
  mode an answer may be held back, and the watch is dropped all the same: `SnapshotCache.SetSnapshotAnswersExactly`
  gives the exact condition and `SnapshotCache.SetSnapshotCanDropSilently` an example. The program itself runs
  without ADS mode (`cmd/bent/main.go:34`).
- `pkg/cache/simple.go:40-42` asks for distinct versions of distinct snapshots, but `pkg/provider/updater.go:157-167`
  hashes load assignments only, in map order. For load assignments the demand is met
  (`Versions.EndpointVersionsDistinct`). For listeners, clusters and routes it is not: `Collisions` has inputs for each,
  among them one unchanging provider visited in two orders, and `Agreement` says exactly when two compilations agree.
  Convergence is therefore proved without the demand: in versions (`Convergence.RestIsCurrent`), and in contents for what
  the version settles (`EndToEnd.ConvergedToPass` and what follows it).
- `pkg/provider/util.go:16-30` reads a range of expected statuses. A value such as 200-299 makes it index past the end
  of a list, which stops the program, and values of another form give the fallback (`Config.ParseRangeExactly`). The
  compiler is modelled for providers whose annotations do not stop it.
- `pkg/cache/simple.go:26-28` promises replies with the latest snapshot. A request that names other resources than the
  one before it, at the stored version, is not answered (`pkg/cache/simple.go:168`): `Renaming.NamesIgnored` is a
  history of this, and `Content.RestSuitsWatchExactly` says exactly when a client at rest was told what it now asks for.

## Model

| member | source | states |
|---|---|---|
| `Xds.IndexResourcesByName` | pkg/cache/snapshot.go:32-38 | the map has every item's name as a key, files every resource under its own name, holds nothing but the items, and of equal names the last one |
| `Xds.LastItemStays` | pkg/cache/snapshot.go:32-38 | an item that no later one shares its name with is the one in the index |
| `Xds.IndexListRoundTrip` | pkg/cache/snapshot.go:32-38 | listing a map of resources in any order and indexing the list by name gives the same map back |
| `Xds.NewSnapshot` | pkg/cache/snapshot.go:69-80 | four groups indexed by name under one version; the secrets group stays empty with an empty version |
| `Xds.ListenerRefs` | pkg/cache/resource.go:100-125 | the route names asked for by some connection manager in some filter chain, no more and no fewer |
| `Xds.GetResourceReferences` | pkg/cache/resource.go:77-129 | the names referred to by some resource of the group, for every order of the visit |
| `Xds.ReferencesExactly` | pkg/cache/resource.go:77-129 | a name is referred to if and only if an EDS cluster has it as service name, or as name if it has none, or a connection manager in some chain of a listener asks for it as route |
| `Xds.Superset` | pkg/cache/simple.go:131-138 | an error exactly when some resource is not named, and the error names such a resource |
| `Xds.SameSizeInclusion` | pkg/cache/snapshot.go:94-105 | equal size and one inclusion force two finite sets to be equal |
| `Xds.Consistent` | pkg/cache/snapshot.go:90-107 | no error if and only if the names referenced by clusters are exactly the endpoint keys and those referenced by listeners exactly the route keys; clusters are checked first, sizes before names; an error that names a resource names an unreferenced one |
| `SnapshotCache.SetSnapshotAnswersExactly` | pkg/cache/simple.go:87-110 | an open watch gets an answer exactly when it is of this node, its version differs and the answer is not held back; the answer is the requested part of the new snapshot; the watch closes exactly when it is of this node and its version differs |
| `SnapshotCache.SetSnapshotCanDropSilently` | pkg/cache/simple.go:44-45 | the promise that all watches with another version are answered fails in ADS mode: a concrete cache whose watch is dropped unanswered |
| `SnapshotCache.AdsAnswerIsWhole` | pkg/cache/simple.go:202-212 | in ADS mode an answered request gets all resources of its type: the name filter drops nothing |
| `Safety.AdsDeliversWhole` | pkg/cache/simple.go:202-212 | over runs: in ADS mode every response ever delivered lists all resources of its type in the snapshot that was stored when it was queued |
| `SnapshotCache.CacheInvSetSnapshot` | pkg/cache/simple.go:87-110 | keeps: watches are at the stored version, have distinct ids and distinct unused channels, every channel was sent to at most once |
| `SnapshotCache.CacheInvCreateWatch` | pkg/cache/simple.go:141-180 | keeps the invariant; opens at most its own watch, under a new id, and leaves all others as they are |
| `SnapshotCache.CacheInvClear` | pkg/cache/simple.go:113-119 | ClearSnapshot keeps the invariant |
| `SnapshotCache.CancelSafe` | pkg/cache/simple.go:187-198 | a cancel function is idempotent, removes its own watch and no other, and keeps the invariant |
| `SnapshotCache.ClearExactly` | pkg/cache/simple.go:113-119 | the node has neither snapshot nor watches, and nothing else is touched |
| `SnapshotCache.CreateWatchExactly` | pkg/cache/simple.go:141-180 | a request without a node is for the node called node; the watch stays open if and only if there is no snapshot or its version is the requested one; otherwise the answer is queued, unless in ADS mode the request names something but not everything |
| `SnapshotCache.CreateWatchTotal` | pkg/cache/simple.go:141-180 | CreateWatch has a result in every state, for every request |
| `SnapshotCache.PollingAgreesWithStreaming` | pkg/cache/simple.go:242-265 | without ADS a poll succeeds exactly when a watch is answered at once, with the same version and resources; in ADS mode an immediate watch answer implies the same poll answer, and the two differ exactly when the answer is held back |
| `CacheObject.NameSet` | pkg/cache/simple.go:122-128 | the set of the names in the list |
| `CacheObject.CreateResponse` | pkg/cache/simple.go:214-238 | lists each requested resource exactly once (all of them if nothing is named), whatever the order of the visit |
| `CacheObject.Cache.constructor` | pkg/cache/simple.go:78-84 | an empty cache that satisfies the invariant |
| `CacheObject.Cache.Respond` | pkg/cache/simple.go:202-212 | sends one answer on an empty channel, or nothing if the answer is held back; other channels are untouched |
| `CacheObject.Cache.Visit` | pkg/cache/simple.go:97-105 | one iteration of the loop of SetSnapshot: the watch is answered and discarded if its version differs, else left |
| `CacheObject.Cache.SetSnapshot` | pkg/cache/simple.go:87-110 | the loop over the open watches, in any order, refines the SetSnapshot relation and never sends on a full channel |
| `CacheObject.Cache.SweepAll` | pkg/cache/simple.go:95-107 | the loop invariant: exactly the visited watches with another version are answered and closed |
| `CacheObject.Cache.ClearSnapshot` | pkg/cache/simple.go:113-119 | snapshot and status of the node are gone, nothing else changes |
| `CacheObject.Cache.CreateWatch` | pkg/cache/simple.go:141-180 | refines the CreateWatch relation: open watch under a new id if there is no snapshot or the version is the stored one, else an answer at once and no cancel function |
| `CacheObject.Cache.CancelWatch` | pkg/cache/simple.go:187-198 | the watch is gone; the invariant is kept; nothing happens if the node has no status |
| `CacheObject.Cache.Fetch` | pkg/cache/simple.go:242-265 | missing snapshot, version up to date, or exactly the requested part of the stored snapshot |
| `Nonces.ValueOfDecimal` | pkg/server/server.go:176-178 | reading the decimal of a nonce gives the number back |
| `Nonces.DecimalInjective` | pkg/server/server.go:176-178 | different counters print as different nonces |
| `Protocol.SlotsInvStep` | pkg/server/server.go:170-298 | no step makes two slots, of any streams, share a channel or a watch id |
| `Protocol.CacheInvStep` | pkg/server/server.go:170-298 | every step of every interleaving keeps the invariant of the cache |
| `Protocol.SlotAfterCreate` | pkg/server/server.go:271-298 | creating a watch gives one slot a new channel, and a new id or none, and leaves all other slots alone |
| `Safety.InvStep` | pkg/server/server.go:152-301 | the joint invariant of cache, streams and ownership of watches is inductive |
| `Safety.NoWatchLeak` | pkg/server/server.go:271-298 | in every reachable state each open watch belongs to exactly one slot of one live stream |
| `Safety.WatchesPerStream` | pkg/server/server.go:88-126 | of all the watches a stream ever opened at most five are open at any time |
| `Safety.NoneSurvivesExit` | pkg/server/server.go:160-167 | no watch that a stream opened at any step of a run is open once the stream has returned, on any path |
| `Safety.CreatorKeepsId` | pkg/server/server.go:271-298 | after the step that opens a watch only slots of the stream that opened it ever carry its id |
| `Safety.OpenWasCreated` | pkg/cache/simple.go:168-174 | every open watch was opened by a step of the run |
| `Safety.WatchesAreFresh` | pkg/cache/simple.go:164-174 | an open watch has no stored snapshot or is at its version; its channel is unused and its own |
| `Safety.AtMostOneResponse` | pkg/cache/simple.go:97-104 | over a whole run each response channel is sent to at most once and never holds more than one |
| `Safety.WatchIdsNeverReused` | pkg/cache/simple.go:168-184 | watch ids grow over the whole run, across all nodes |
| `Safety.CancelledForever` | pkg/cache/simple.go:187-198 | a watch that fired, was cancelled or cleared never opens again, and its cancel function, however late, removes nothing |
| `Safety.ResponseExactness` | pkg/cache/simple.go:202-238 | every response delivered answers the slot's latest request, differs from it in version, and was, when queued, exactly the requested part of the snapshot then stored |
| `Safety.QueuedIsCurrent` | pkg/cache/simple.go:97-101 | whatever a step puts into a channel is made from the snapshot stored at that moment, into an empty channel |
| `Safety.LatestNonceIndex` | pkg/server/server.go:194-242 | a response's nonce is the latest one of a type exactly when it is of that type and no later one is |
| `Safety.NonceDiscipline` | pkg/server/server.go:253-298 | the k-th response of a stream carries the decimal of k; after the first response of a type a request is accepted exactly when it carries the nonce of the latest one, which is the nonce of no other response of any type |
| `Delivery.LostExactly` | pkg/cache/simple.go:87-119 | a slot waits on a channel nobody will ever send to exactly when it did before and was not renewed, or this step clears its node or holds back its ADS answer |
| `Delivery.LostSince` | pkg/cache/simple.go:87-119 | in every run, of whatever mode, a slot waits for ever exactly when some step dropped its answer and none since renewed it |
| `Delivery.UpdateWaitsExactly` | pkg/cache/simple.go:87-180 | in every run, if a slot's request is unanswered and the stored version differs from it, the response waits in the slot's channel exactly when no step dropped it since the slot was renewed |
| `Delivery.NoLostUpdate` | pkg/cache/simple.go:87-110 | without ADS and ClearSnapshot: if a slot's request is unanswered and the stored version differs from it, the response already waits in the slot's channel |
| `Delivery.ClearLosesUpdate` | pkg/cache/simple.go:113-119 | with ClearSnapshot the property fails: clearing a watched node and storing another version leaves the slot waiting for ever |
| `Delivery.ClearLosesUpdateRun` | pkg/cache/simple.go:113-119 | a complete run of five steps in which that happens |
| `Convergence.WorldInvMove` | pkg/server/server.go:170-298 | a client that acknowledges each response once has exactly one thing under way per type, in every interleaving |
| `Convergence.RankMove` | pkg/server/server.go:170-298 | a move on a lane lowers its measure, moves of anyone else leave it, unless a snapshot is published for the node |
| `Convergence.DueMove` | pkg/server/server.go:194-242 | a delivery uses up one of the at most two responses a type is still due |
| `Convergence.BoundedConvergence` | pkg/server/server.go:170-298 | after the last snapshot for its node a client gets at most two more responses per type and at most 45 moves happen on its connection, whatever everyone else does |
| `Convergence.RestIsCurrent` | pkg/cache/simple.go:164-174 | a started type is at rest exactly when it has an open watch, which then is at the stored version |
| `Convergence.Progress` | pkg/server/server.go:191-300 | until all started types are at rest the client or its stream can move |
| `Convergence.CanConverge` | pkg/server/server.go:170-298 | from every point of every history the client and its stream alone can bring all started types to rest, within the number of moves the measure gives |
| `Content.HistoryCarries` | pkg/server/server.go:194-298 | whatever is under way for a type claims the version of the latest response, or the first one the client came with, and names what the client always names |
| `Content.LatestWasCurrent` | pkg/cache/simple.go:202-238 | the latest response was exactly the requested part of a snapshot stored for the client's node at some moment |
| `Content.RestHasStoredVersion` | pkg/cache/simple.go:164-174 | a client at rest, unless its first request already claimed the stored version, has had a response, and the latest one is exactly what its request asked for out of a snapshot once stored that has the version stored now |
| `Content.RestHasCurrentContent` | pkg/cache/simple.go:40-42 | with distinct versions that is the snapshot stored now |
| `Content.RestSuitsWatchExactly` | pkg/cache/simple.go:164-174 | what a client at rest was told answers its open watch if and only if watch and answered request ask, in effect, for the same resources |
| `Content.RestSuitsWatch` | pkg/cache/simple.go:164-174 | a client that always asks for the same names was told, at rest, exactly what its open watch asks for |
| `Renaming.NamesIgnored` | pkg/cache/simple.go:167-174 | a complete history in which a client changes its names, to any names at all, and comes to rest untold: the code compares versions only |
| `Locks.StepKeeps` | pkg/cache/status.go:43-56 | every lock-level step keeps: holders and waiters agree with the mutexes, registered watches have distinct, empty channels |
| `Locks.SendsNeverBlock` | pkg/cache/simple.go:97-104 | every send made while holding the cache mutex finds its channel empty: those of SetSnapshot and the one of CreateWatch |
| `Locks.DeadlockFreedom` | pkg/cache/status.go:53-55 | in every reachable state with an unfinished operation some operation can take its next lock-level step |
| `Locks.MutualExclusion` | pkg/cache/status.go:43-56 | who holds the cache mutex or an info mutex for writing holds it alone, in every reachable state |
| `Locks.JobsDone` | pkg/cache/simple.go:141-198 | what the last step under an info mutex has done: a cancelled watch is unregistered, a watch left open is registered with a new empty channel, an immediate answer is in a new channel |
| `Locks.ForgetDone` | pkg/cache/simple.go:113-119 | clearing a node forgets its status and nothing else |
| `Locks.EveryStepLowersWork` | pkg/cache/simple.go:87-119 | every lock-level step lowers a well-founded measure, so that finitely many operations finish in every interleaving |
| `Exit.ReceiveEndsExactly` | pkg/server/server.go:244-263 | a hang-up, a nil request or a request without type on a stream without type ends the stream and does nothing else; every other input leaves it open |
| `Exit.ReceiveServesExactly` | pkg/server/server.go:256-298 | a request is served as its own type or else the stream's, if its slot has no nonce or the same one; otherwise nothing happens |
| `Exit.DeliverEndsExactly` | pkg/server/server.go:170-242 | a response that cannot be encoded ends the stream and uses up no nonce, one that cannot be sent ends it and does, any other leaves it open and its slot remembers the nonce |
| `Exit.ClosesExactly` | pkg/server/server.go:191-300 | these are the only steps that end a stream |
| `Exit.WindsDown` | pkg/server/server.go:162-167 | over runs: an ended stream is never open again, its only steps release its slots, at most five times, and the fifth closes it |
| `Exit.EndLeavesNothing` | pkg/server/server.go:162-167 | over runs: after the five releases no watch that the stream ever created is open |
| `Exit.ReleaseIsPossible` | pkg/server/server.go:110-126 | until then the next release is always possible |
| `ServerObject.StreamLoop.constructor` | pkg/server/server.go:152-161 | a stream starts with five empty slots and nonce zero |
| `ServerObject.StreamLoop.HandleResponse` | pkg/server/server.go:170-242 | one case of the select: the response leaves the channel, is sent under the next nonce, and the slot remembers the nonce only if that succeeds |
| `ServerObject.StreamLoop.Rewatch` | pkg/server/server.go:271-298 | cancels the slot's old watch, then creates the new one, in this order |
| `ServerObject.StreamLoop.HandleRequest` | pkg/server/server.go:244-298 | type URL defaulting, the error returns, the nonce check and the re-creation of one slot's watch |
| `ServerObject.StreamLoop.CancelAll` | pkg/server/server.go:110-126 | all five cancel functions are called, in order, and the slots stay |
| `ServerObject.AllCancelledExactly` | pkg/server/server.go:110-126 | Cancel closes exactly the watches that the stream's slots had open |
| `ServerObject.RequestIsSteps` | pkg/server/server.go:244-298 | what HandleRequest promises is a Receive step of the machine, then a Create step if the request is accepted |
| `ServerObject.ResponseIsStep` | pkg/server/server.go:194-242 | what HandleResponse promises is a Deliver step of the machine |
| `ServerObject.CancelIsSteps` | pkg/server/server.go:162-167 | what CancelAll promises is five Release steps of the machine in a row |
| `Config.AtoiDecimal` | pkg/provider/util.go:8-14 | a numeral within 64 bits is read back as its number |
| `Config.AtoiExactly` | pkg/provider/util.go:8-14 | exactly the numerals within 64 bits, with a sign or none, are numbers |
| `Config.WeightExactly` | pkg/provider/endpoint.go:24-35 | 64 without the annotation or with one that is no positive number; otherwise its low 32 bits if these are between 1 and 128, and 64 if not |
| `Config.ParseRangeExactly` | pkg/provider/util.go:16-30 | a value of the form number-anything with one dash stops the program, every other value gives the fallbacks: the annotation has no other effect |
| `MeshObject.MakeEgressEndpoints` | pkg/provider/util.go:33-42 | each endpoint in order, address and annotations kept, port 4100 |
| `MeshObject.MakeEgressServices` | pkg/provider/util.go:45-53 | each service in order, name kept, endpoints moved to port 4100 |
| `MeshObject.MergeAnnotations` | pkg/provider/util.go:55-63 | later endpoints win, for every order in which annotations are visited; a key is there exactly when some endpoint has it |
| `MeshObject.ToLbEndpoints` | pkg/provider/node.go:97-124 | each endpoint in order, with address, port and the weight that its annotation gives, 64 if it has none |
| `MeshObject.ServiceConfig` | pkg/provider/cluster.go:50-87 | the configuration of a service, read out of the merged annotations of its endpoints |
| `MeshObject.ListResources` | pkg/provider/node.go:235-257 | each resource of the map exactly once, in any order |
| `MeshObject.Listener.constructor` | pkg/provider/listener.go:59-132 | one router filter and one empty filter chain |
| `MeshObject.Listener.InjectFault` | pkg/provider/listener.go:136-175 | the fault filter goes in front, only if enabled; it aborts with the code and chance of the configuration if both are positive, and delays likewise |
| `MeshObject.Listener.InjectAuthz` | pkg/provider/listener.go:179-200 | the authorization filter goes in front |
| `MeshObject.Listener.InjectHealthCheckCache` | pkg/provider/listener.go:204-228 | the health check filter goes in front, with the cache time and the path that the annotations say |
| `MeshObject.Listener.Resource` | pkg/provider/listener.go:231-246 | one chain with exactly one network filter, for the target route and with the current HTTP filters, however often it is called |
| `MeshObject.Listener.InjectService` | pkg/provider/updater.go:98-99 | health check, then fault, for one service |
| `MeshObject.Node.constructor` | pkg/provider/node.go:30-38 | a node with empty maps |
| `MeshObject.Node.AddEndpoints` | pkg/provider/node.go:41-56 | appends to the load assignment, made if it is missing |
| `MeshObject.Node.AddCluster` | pkg/provider/node.go:59-66 | the loop over services equals adding them one by one and keeps the node well formed; clusters that are there stay, and of new ones the first service fixes every field |
| `MeshObject.Node.KeepFirst` | pkg/provider/node.go:83-94 | a virtual host is appended exactly when its name is new in the route |
| `MeshObject.Node.AddRoute` | pkg/provider/node.go:76-95 | makes the route if it is missing, then adds the virtual hosts one by one |
| `MeshObject.Node.AddListener` | pkg/provider/node.go:69-71 | appends the listeners |
| `MeshObject.CollectGlobal` | pkg/provider/updater.go:51-60 | all services and virtual hosts of the mesh, along some order of the map |
| `MeshObject.BuildSidecar` | pkg/provider/updater.go:62-104 | one iteration of the second loop builds exactly the specified sidecar |
| `MeshObject.AddOwnServices` | pkg/provider/updater.go:84-100 | the inner loop adds the node's own services and their filters |
| `MeshObject.BuildFrontProxy` | pkg/provider/updater.go:106-120 | exactly the specified front proxy |
| `MeshObject.BuildSidecars` | pkg/provider/updater.go:62-104 | a sidecar for every node of the provider, along a second, independent order of the map |
| `MeshObject.Transform` | pkg/provider/updater.go:46-122 | a sidecar for each provider node and the front proxy last, for every pair of orders of the two loops |
| `Mesh.AddServicesEffect` | pkg/provider/node.go:59-66 | adding services appends, under each name, exactly their endpoints in order, and touches no route |
| `Mesh.AddLocalsEffect` | pkg/provider/updater.go:85-92 | the node's own services add, under their local names, exactly their endpoints |
| `Mesh.AddLocalsRoutes` | pkg/provider/updater.go:93-96 | the ingress route appears exactly when the node has a service; other routes are untouched |
| `Settings.LaterWins` | pkg/provider/util.go:55-63 | in the merged annotations a key has the value of the last endpoint that has it |
| `Settings.NumberReads` | pkg/provider/cluster.go:89-97 | a number is its default if no endpoint has the key or the last that has it has no positive number, and otherwise its low 32 bits |
| `Settings.DurationReads` | pkg/provider/cluster.go:99-107 | the same for durations: milliseconds, as nanoseconds in 64 bits |
| `Settings.ClusterForReads` | pkg/provider/node.go:126-180 | each of the eight fields of a cluster says what its own annotation says, with its own default |
| `Settings.SidecarClusterReads` | pkg/provider/updater.go:51-92 | every cluster of a sidecar says what the annotations of the first service met under its name say, field by field |
| `Settings.HealthFilterReads` | pkg/provider/listener.go:204-228 | the health check filter has the cache time and the path that the annotations say |
| `Settings.FaultFilterReads` | pkg/provider/listener.go:136-175 | the fault filter aborts with the code and the chance that the annotations say, if both are positive, and delays likewise |
| `Settings.SidecarListenersRead` | pkg/provider/updater.go:69-102 | the two listeners of a sidecar: for each service, last one first, a fault filter exactly if some endpoint has the annotation and a health check filter, as its annotations say, then the router |
| `Settings.FrontListenersRead` | pkg/provider/updater.go:106-120 | the front proxy's one listener authorizes and then routes, by the ingress route |
| `Routing.SharesWithout` | pkg/provider/updater.go:52-60 | the endpoints of a service over a set of nodes do not depend on the order of the nodes |
| `Routing.OrderedShares` | pkg/provider/updater.go:52-60 | along any order the collected endpoints of a service are, as a multiset, those of all nodes |
| `Routing.EndpointConservation` | pkg/provider/updater.go:51-92 | under any name a sidecar load-balances, as a multiset, over exactly the provider's endpoints of that name at port 4100 plus its own endpoints of that local name as they are |
| `Routing.ServiceClusterExactly` | pkg/provider/updater.go:51-92 | the cluster of c holds exactly c's endpoints at port 4100 if and only if no service d of this node with endpoints has local_d == c |
| `Routing.LocalClusterExactly` | pkg/provider/updater.go:85-92 | local_d holds exactly this node's endpoints of d if and only if no service with endpoints is itself called local_d |
| `Routing.FrontConservation` | pkg/provider/updater.go:106-109 | the front proxy load-balances over exactly the provider's endpoints at port 4100, with one ingress route |
| `Routing.FirstFixesConfig` | pkg/provider/node.go:59-66 | a cluster that is there stays; otherwise the first service of a name fixes its cluster and its settings |
| `Routing.SidecarClusterConfig` | pkg/provider/updater.go:51-92 | the clusters of a sidecar: exactly one per name met, with the settings of the first service met under it, local names last |
| `Routing.AddVHostFirst` | pkg/provider/node.go:83-94 | vhostExists stays the set of names in the route; the virtual host is kept exactly when its name is new |
| `Routing.AddRouteKeepsFirsts` | pkg/provider/node.go:76-95 | for any sequence of AddRoute calls and every route: it exists exactly if called for, vhostExists is exactly its names, none repeats, and it holds the first occurrences over all calls for it |
| `Routing.FirstHostsPicks` | pkg/provider/node.go:82-94 | first occurrences: in order, and a virtual host is there exactly when none before it has its name |
| `Routing.EgressServesAll` | pkg/provider/updater.go:52-67 | the egress route of every sidecar has one virtual host per service of the mesh, to the service's own cluster, in the order of first occurrence |
| `Routing.IngressServesOwn` | pkg/provider/updater.go:93-96 | a sidecar has an ingress route exactly if its node has services, with one virtual host per own service, to the local cluster, in order |
| `Routing.FrontServesAll` | pkg/provider/updater.go:106-109 | the front proxy's ingress route has one virtual host per service of the mesh |
| `Routing.DomainsDistinctExactly` | pkg/provider/node.go:207-233 | the domains of a route are pairwise distinct if and only if no service name is another's plus :4100 |
| `Routing.EgressRouteValidExactly` | pkg/provider/updater.go:52-67 | the same for the egress route of every sidecar |
| `Routing.IngressRouteValidExactly` | pkg/provider/updater.go:93-96 | the same for the ingress route of every sidecar and its own services |
| `Routing.FrontRouteValidExactly` | pkg/provider/updater.go:106-109 | the same for the front proxy |
| `Routing.VHostExactly` | pkg/provider/node.go:207-233 | name, the two domains and the cluster of a virtual host |
| `Routing.RouteSendsExactly` | pkg/provider/node.go:207-233 | for any list of services a route sends a host to the cluster of g exactly when g is the first that answers to it, and nowhere exactly when none does |
| `Routing.FirstHopRoute` | pkg/provider/updater.go:52-67 | in a given order every sidecar's egress route and the front proxy send host h to cluster h exactly when h is met before any g with h == g:4100 |
| `Routing.FirstHopExactly` | pkg/provider/updater.go:52-67 | over the provider alone: host h goes to cluster h in every order if and only if on every node h comes before any g with h == g:4100 |
| `Routing.FirstHopCluster` | pkg/provider/updater.go:51-66 | for every endpoint of h anywhere, cluster h of every sidecar and of the front proxy contains its address at port 4100 |
| `Routing.SecondHopRoute` | pkg/provider/updater.go:85-96 | the owning node's ingress route sends h, with or without the port, to local_h exactly when h comes first among the services that answer to it |
| `Routing.SecondHopCluster` | pkg/provider/updater.go:85-92 | local_h on the owning node contains the endpoint with its own port |
| `Routing.TwoHops` | README.md:57-93 | both hops together, from every sidecar and from the front proxy to every endpoint of every service, for every order, where no service name is another's plus :4100 |
| `Routing.TwoHopsExactly` | README.md:57-93 | for each service, over the provider alone: both routes are right in every order, with and without the port, if and only if the service comes first among what else answers to its hosts |
| `Routing.ClashMisroutes` | pkg/provider/node.go:207-233 | that condition is needed: with services a and a:4100 the host a:4100 goes to the cluster a |
| `Routing.ConsistentExactly` | pkg/cache/snapshot.go:90-107 | the snapshot of a well-formed node is consistent exactly when its listeners ask for exactly its routes |
| `Routing.SidecarConsistentExactly` | pkg/provider/updater.go:62-104 | a sidecar's snapshot is consistent exactly when its node has at least one service |
| `Routing.FrontConsistent` | pkg/provider/updater.go:106-121 | the front proxy's snapshot is always consistent |
| `Routing.IngressFilters` | pkg/provider/listener.go:126-228 | the ingress listener's HTTP filters are the injections in reverse (per service health check, then fault if enabled), with the only router last |
| `Updater.SnapshotOfNode` | pkg/provider/updater.go:140-146 | the node's lists, each in some order, indexed by name, under a hash of a separate listing of the load assignments |
| `Updater.StoresOwnMaps` | pkg/provider/updater.go:140-146 | for a well-formed node that snapshot holds exactly the node's own maps, whatever the orders |
| `Updater.Publish` | pkg/provider/updater.go:139-148 | the snapshots of the nodes are stored one after the other; the cache invariant is kept |
| `Updater.StoreAllStores` | pkg/provider/updater.go:139-148 | of nodes with one name the last one's snapshot is stored; other nodes keep theirs |
| `Updater.StoredIsDeployed` | pkg/provider/updater.go:139-148 | the stored snapshots are those of the sidecars and of the front proxy, which wins over a provider node called ingress |
| `Updater.Pass` | pkg/provider/updater.go:130-148 | after one pass, whatever was stored before, the cache holds what the provider reports, under hashed versions and with the stated consistency |
| `Versions.DeployedIsCompiled` | pkg/provider/updater.go:139-148 | what one pass has stored is compiled from the provider, under the hash of a listing of its load assignments |
| `Versions.VersionSettlesEndpoints` | pkg/provider/updater.go:157-167 | two snapshots of the updater with equal versions have equal load assignments, whatever the orders in which they were hashed |
| `Versions.EndpointVersionsDistinct` | pkg/cache/simple.go:40-42 | for load assignments the updater's versions meet the demand for distinct versions, in every history |
| `Versions.OneVersionSameEndpoints` | pkg/provider/updater.go:140-146 | two snapshots of a sidecar with one version come from nodes with the same load assignments and the same names |
| `Agreement.InjectAllExactly` | pkg/provider/listener.go:126-228 | two service lists give the same ingress filters if and only if they are as long and have the same filters, payloads included, at each position |
| `Agreement.ListenersAgreeExactly` | pkg/provider/updater.go:69-102 | two compilations of a sidecar agree on the listeners if and only if its services are as many and have the same health check path and cache time and the same fault at each position |
| `Agreement.ClustersAgreeExactly` | pkg/provider/updater.go:51-92 | they agree on the clusters if and only if under every name the first services met have the same settings |
| `Agreement.RouteKeepsOrder` | pkg/provider/node.go:76-95 | the order of the virtual hosts in a route is that in which the names were first met |
| `Agreement.RoutesAgreeExactly` | pkg/provider/updater.go:52-96 | they agree on the routes if and only if the same services were first met in the same order, over the mesh and on the node |
| `Collisions.SameLoadsSameEndpoints` | pkg/provider/updater.go:51-92 | providers that differ only in how endpoints are spread over entries of one name and in annotations other than weights compile to the same load assignments on every node |
| `Collisions.HalvesShareVersion` | pkg/provider/updater.go:140-146 | whatever the hash, a service reported in two halves or in one piece gives one version and other listeners |
| `Collisions.AnnotationsShareVersion` | pkg/provider/updater.go:140-146 | changing annotations of an endpoint but not its weight keeps the version, and changes the listeners if and only if it changes the filters they stand for |
| `Collisions.FaultSharesVersion` | pkg/provider/updater.go:140-146 | enabling a fault changes the listeners and not the version |
| `Collisions.PathSharesVersion` | pkg/provider/updater.go:140-146 | changing the health check path changes the listeners, and in a mesh of one node the clusters, and not the version |
| `Collisions.OrderSharesVersion` | pkg/provider/updater.go:52-67 | one and the same provider visited in another order gives one version and other routes |
| `Collisions.LocalNameSharesVersion` | pkg/provider/updater.go:87-92 | a service without endpoints called like a local cluster changes the routes and not the version |
| `EndToEnd.AnswerTells` | pkg/cache/simple.go:214-238 | whatever a request names, its answer has each resource that is there and asked for exactly once, and nothing else |
| `EndToEnd.EndpointsTold` | pkg/provider/updater.go:51-92 | such an answer about load assignments gives, for each service asked for, exactly the mesh's endpoints |
| `EndToEnd.ClustersTold` | pkg/provider/updater.go:51-92 | such an answer about clusters gives one per service of the mesh and per own local name asked for, and no others |
| `EndToEnd.RoutesTold` | pkg/provider/updater.go:52-96 | such an answer about routes gives an egress route that serves exactly the services of the mesh and an ingress route that serves exactly the node's own, and sends each to its cluster where no names clash |
| `EndToEnd.ListenersTold` | pkg/provider/updater.go:69-102 | such an answer about listeners gives the two listeners with their routes and filters |
| `EndToEnd.ConvergedTells` | pkg/server/server.go:170-298 | with distinct versions a converged sidecar has been told exactly what it asks for of the compiled mesh, for each type |
| `EndToEnd.ConvergedToPass` | pkg/server/server.go:170-298 | without that, for each type: exactly what it asks for of the mesh as some pass compiled it, and that pass agrees with the stored one on all load assignments |
| `EndToEnd.ConvergedSidecarKnowsEndpoints` | pkg/server/server.go:170-298 | a converged sidecar has been told exactly the mesh's endpoints of each service it asks for |
| `EndToEnd.ConvergedSidecarKnowsClusters` | pkg/server/server.go:170-298 | it has been told one cluster for each service of the mesh and each local name it asks for, and no others |
| `EndToEnd.ConvergedSidecarKnowsRoutes` | pkg/server/server.go:170-298 | if no service is ever called like a local cluster, it has been told routes that serve exactly the services of the mesh and of its node, whatever passes there were and in whatever orders |
| `EndToEnd.ConvergedSidecarKnowsListeners` | pkg/server/server.go:170-298 | it has been told the two listeners, with the filters of the node's services as some pass found them; those of the last pass if the filters are the same or versions are distinct |

## Left out

- Routing.TwoHops: holds where no service name is another's plus ":4100", and is false without that (`Routing.ClashMisroutes`); `Routing.TwoHopsExactly` gives the exact condition on the provider for every service.
- EndToEnd.ConvergedSidecarKnowsRoutes: holds where no service is ever called like a local cluster; without that one version can stand for two sets of services (`Collisions.LocalNameSharesVersion`).
- Updater.Pass: one pass; the ten-second wait, the provider's errors and the logging around it are not modelled. The MD5 sum of the marshalled load assignments is an arbitrary function of the listed load assignments, which hold exactly what is marshalled and varies: names, addresses, ports and weights. Where collisions matter, `Versions.CollisionFree` says so.
- MeshObject.Listener.Resource: returns a value; the program returns a pointer to an object that a later call changes in place.
- The protobuf encoding of responses (`createResponse` in `pkg/server/server.go`): only its possible failure is modelled.
- Runs with ADS mode or ClearSnapshot have no lost-update guarantee and no convergence, because both are false there; `Delivery.UpdateWaitsExactly` and `Delivery.LostExactly` say exactly which runs and steps lose an answer.
- A client that rejects responses, leaves out its type URL or loses its connection: convergence is about one that acknowledges each response once on a connection that stays up.
- Fair scheduling: `Convergence.CanConverge` and `Locks.DeadlockFreedom` say that a step is possible and the measures bound how many there can be, not that a scheduler takes them.
- Finer interleavings than one step per critical section: those are in `Locks.dfy`, which has no response contents.
- 64-bit wrap-around of watch ids and nonces: both counters are unbounded.
- Response channels are never closed by the program, so the "watch failed" returns of the stream loop have no step.
- gRPC, the goroutine that receives requests, the Stream and Fetch wrappers and server callbacks (`cmd/bent/main.go:53` passes none): requests arrive as arbitrary steps.
- Timestamps and node metadata kept in the status info; its getters appear only in the locking model.
- Payloads that are the same in all resources of a kind or follow from the name: addresses, ports and tracing of listeners, access logs, the authorization filter's service, connect timeouts, thresholds, the expected status range.
- The Fargate and file providers: what they report is an arbitrary map.
