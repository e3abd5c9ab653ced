# Verified model of the Streamr native SDK's core logic

A Dafny model of the parts of the repository where state, ordering and
ownership matter, with proofs about all inputs, all runs and, for the stop
protocol, all interleavings. `dafny verify dfyconfig.toml` checks everything.

- `HeaderGraph`, `Tarjan`, `IncludeDag`: the header-cycle checker. The pass is
  a class whose fields are updated in place; its invariant is proved for every
  neighbour order and every order of start headers.
- `StopProtocol`, `StopOverlaps`, `StopEffects`: start, stop, delete and use of
  shared node handles by any number of threads, one step per atomic access,
  locked region, foreign call or reference drop; what overlapping calls can and cannot do, and
  what calls have achieved when they return.
- `NodeSpec`, `NodeLife`, `NodeRuns`, `NodeLedgers`, `NodeDelivery`: the C API
  as a state machine over serialized calls, what every operation on a node
  keeps, and theorems about every run. `NodeLaws` has one law for each call:
  its network calls, its effect, its answer. `NodeTraces` traces every network
  call of a run back to its cause. `NodeApi` holds the objects with their
  mutable tables; `Globals.Perform` is proved to make exactly one step of the
  state machine, and `Serve` carries this over to whole runs.
- `NodeWrapper`: the C++ class on top of the C API. `NodeLeaks`: what can be
  left behind, with runs in which it is.
- `ResultStorage`, `ResultRegistry`, `ResultMemory`: the memory behind results,
  from single objects over the registry of live results to whole runs.
- `PeerList`, `StreamPart`, `Strings`, `Options`: peer lists, stream part ids.
- `ClangFormat`, `TreePaths`, `StreamPrinter`, `PluginPaths`: the formatter's
  directory walk, the paths it lists, and its exit code; the protoc plugin's
  output stream and path functions.

What the environment decides is an argument: random handles, addresses of new
results, whether a foreign call returns or throws, which buffers a stream hands
out, which paths a pattern matches, which URLs parse.

## Where the code differs from what it promises

- `parseStreamPartIdChecked` and `proxyClientNew` catch std::invalid_argument
  only. A stream id that `toStreamID` rejects, or a partition of 2^64 or more,
  raises another exception, which leaves the C function without a result
  (`OneResultUnlessEscaped`, `UncaughtExactlyWhen`; `EmptyStreamIdEscapes` is an
  instance).
- A partition is cut to 32 bits before the range check, and partitions from 100
  on are rejected, so the number as written survives only below 100
  (`WrittenPartitionSurvives`, `TruncatedPartition`).
- `addSubscription` uses `emplace`: if a random handle is already in use, the
  new listener can no longer be removed by any handle (`OrphanForever`,
  `CollisionHappens`).
- The started check and the start are not atomic: two overlapping start calls
  can start the network twice, and it is then stopped at most once
  (`OverlapBreaksPairing`, `OverlapHappens`).
- The guard of a call and its use of the network are not atomic either: a stop
  in between lets the call reach a stopped network (`MeetingAllowsLateUse`,
  `LateUseHappens`).
- `StreamrNodeError` has no code for an invalid proxy URL
  (`ThrownCodeIsReported`, `BadProxyUrlIsRenamed`).
- The destructor of `StreamrNode` takes handle 0 for "no node", but the random
  handle may be 0 (`DestructorSparesOnlyZero`, `ZeroHandleLeaks`).
- An empty `module_prefix` makes the plugin fail without an error message
  (`SilentFailure`, `KeyAloneFailsSilently`).
- `print` ignores a failing Next and then never ends
  (`LoopEndsIffEnoughOffered`, `FailingStreamNeverEnds`).

## Model

| member | source | states |
|---|---|---|
| `Tarjan.Pass.constructor` | check-include-dag.py:63-68 | the pass starts with nothing numbered, stacked or reported, which satisfies its invariant |
| `Tarjan.Pass.PopComponent` | check-include-dag.py:82-88 | the pop loop removes exactly the stack from `v` upwards, returns it in reverse and clears `on_stack` for these headers only |
| `Tarjan.Pass.ReportComponent` | check-include-dag.py:82-89 | the popped part becomes the last entry of `sccs` |
| `Tarjan.Pass.Enter` | check-include-dag.py:71-74 | numbering and pushing `v` opens its call with all targets still to be looked at |
| `Tarjan.Pass.Descend` | check-include-dag.py:76-78 | a recursive visit followed by taking the smaller lowlink keeps everything an open call relies on |
| `Tarjan.Pass.Scan` | check-include-dag.py:75-80 | one target, unvisited, on the stack or settled, is looked at without breaking the invariant |
| `Tarjan.Pass.Leave` | check-include-dag.py:81-89 | the component is reported exactly when lowlink equals index, and then it is a whole strongly connected component |
| `Tarjan.Pass.StrongConnect` | check-include-dag.py:70-89 | for every neighbour order: terminates (unindexed headers decrease), keeps the caller's stack as a prefix, stack order, `on_stack`, counter, completeness of all reported components and the emission order |
| `Tarjan.Pass.Run` | check-include-dag.py:91-93 | for every order of start headers, `sccs` are exactly the strongly connected components, a partition of the headers, in reverse topological order; every header is numbered once and the stack ends empty |
| `Tarjan.LowlinkMarksFirstVisited` | check-include-dag.py:75-89 | when a call returns, lowlink equals index if and only if the header is the first-visited member of its component |
| `Tarjan.TopIsScc` | check-include-dag.py:81-89 | the part of the stack from `v` upwards is mutually reachable and maximal when lowlink equals index |
| `Tarjan.PopReverseTopological` | check-include-dag.py:81-89 | appending it keeps the order in which every edge leads to an earlier or the same component |
| `IncludeDag.CollectOwners` | check-include-dag.py:44-47 | a name belongs to the first header, in the order of the texts, that defines it |
| `IncludeDag.CollectEdges` | check-include-dag.py:49-59 | the edge sets are the include targets within the package plus the owners of forward-declared names, self excluded for the latter |
| `IncludeDag.EdgesAreDependencies` | check-include-dag.py:44-59 | those edges are exactly the dependency relation stated on the texts, and they stay within the package |
| `IncludeDag.LargeIsReport` | check-include-dag.py:95 | filtering a full decomposition by size lists exactly the headers that lie on a common cycle with another one |
| `IncludeDag.EmptyReportMeansNoCycle` | check-include-dag.py:70-95 | the report is empty if and only if no cycle passes through two or more distinct headers |
| `IncludeDag.ReportIsDetermined` | check-include-dag.py:70-95 | as a set of sets the report does not depend on the order in which headers or edges are visited |
| `IncludeDag.KeepLarge` | check-include-dag.py:95 | the filter keeps the components of more than one header, in order |
| `IncludeDag.CheckPackage` | check-include-dag.py:30-95 | from header texts to report: every component of two or more headers once, in order; empty if and only if the package has no such cycle |
| `StopProtocol.ExecInv` | packages/streamr-libstreamrproxyclient/src/streamrproxyclient.cpp:748-818 | reference counts, registry, flags and threads stay balanced in every interleaving of any number of threads |
| `StopProtocol.StopInvokedAtMostOnce` | packages/streamr-libstreamrproxyclient/src/streamrproxyclient.cpp:748-763 | in every interleaving the network stop is invoked at most once, only on a started node, and exactly once if a started wrapper has been destroyed |
| `StopProtocol.NoUseAfterDestroy` | packages/streamr-libstreamrproxyclient/src/streamrproxyclient.cpp:803-818 | in every interleaving no thread, pending reference or handle leads to a destroyed wrapper |
| `StopProtocol.QuietMeansNoLeak` | packages/streamr-libstreamrproxyclient/src/streamrproxyclient.cpp:970-984 | when all calls have returned, a wrapper is destroyed if and only if no handle names it, and was then stopped if and only if it was started |
| `StopProtocol.StartInvokedAtMostOnce` | packages/streamr-libstreamrproxyclient/src/streamrproxyclient.cpp:986-1047 | the network start is invoked at most once if no two start calls on a node overlap between check and store |
| `StopProtocol.OverlapAllowsSecondStart` | packages/streamr-libstreamrproxyclient/src/streamrproxyclient.cpp:986-1047 | conversely, from every state where two start calls overlap there, some continuation starts the network twice |
| `StopProtocol.OverlapHappens` | packages/streamr-libstreamrproxyclient/src/streamrproxyclient.cpp:986-1047 | a concrete schedule of two threads reaches such an overlap |
| `StopOverlaps.SerializedStartsArePaired` | packages/streamr-libstreamrproxyclient/src/streamrproxyclient.cpp:986-1047 | if callers never let two start calls on one node overlap, the network is started at most once and, when the wrapper is destroyed, was stopped as often as it was started |
| `StopOverlaps.OverlapBreaksPairing` | packages/streamr-libstreamrproxyclient/src/streamrproxyclient.cpp:986-1047 | from every overlap between check and store some continuation has the network started more often than it is stopped in any further continuation |
| `StopOverlaps.GuardedCallsAreInTime` | packages/streamr-libstreamrproxyclient/src/streamrproxyclient.cpp:820-842 | if no call stands between its guard and the network while a stop of the node is about to flip the flag, no guarded call reaches the network after the stop |
| `StopOverlaps.MeetingAllowsLateUse` | packages/streamr-libstreamrproxyclient/src/streamrproxyclient.cpp:820-842 | conversely, every such meeting has a continuation in which the network has been stopped and the call is still to use it |
| `StopOverlaps.LateUseHappens` | packages/streamr-libstreamrproxyclient/src/streamrproxyclient.cpp:1075-1113 | a concrete schedule that reaches such a late use |
| `StopEffects.FailedStartStops` | packages/streamr-libstreamrproxyclient/src/streamrproxyclient.cpp:1029-1046 | if a network start throws, then in every continuation the node is stopped by the time the call has left its start phase, and its one network stop has been made or is being made |
| `StopEffects.NoUseAfterFailedStart` | packages/streamr-libstreamrproxyclient/src/streamrproxyclient.cpp:1029-1046 | after that, no call that is not already past its guard ever gets to use that network |
| `StopEffects.StoppedBarsUse` | packages/streamr-libstreamrproxyclient/src/streamrproxyclient.cpp:820-842 | on a stopped node no thread newly gets as far as using the network |
| `StopEffects.StartedBarsStart` | packages/streamr-libstreamrproxyclient/src/streamrproxyclient.cpp:991-1009 | on a node marked as started no thread newly gets as far as starting the network |
| `StopEffects.StoppedIsStarted` | packages/streamr-libstreamrproxyclient/src/streamrproxyclient.cpp:991-1009 | a stopped node is always a started one, so the first of the two tests before a start only chooses the error, and the last store of the failure handler changes nothing |
| `StopEffects.SuccessfulStartMarks` | packages/streamr-libstreamrproxyclient/src/streamrproxyclient.cpp:1010-1028 | if the network start returns, the node is marked as started by the time the call has left its start phase |
| `StopEffects.StopTakesEffect` | packages/streamr-libstreamrproxyclient/src/streamrproxyclient.cpp:1049-1073 | a stop call that finds the node started has stopped it by the time it is through, with exactly one network stop made or under way |
| `NodeLife.PhaseIsOrder` | packages/streamr-libstreamrproxyclient/src/streamrproxyclient.cpp:759-763 | the automaton New, Running, Stopped accepts exactly the call traces that start first and once and, after a stop, only remove listeners; its phase tells which happened |
| `NodeLife.StopGood` | packages/streamr-libstreamrproxyclient/src/streamrproxyclient.cpp:759-763 | stopping keeps the flags in step with the network trace |
| `NodeLife.DestroyGood` | packages/streamr-libstreamrproxyclient/src/streamrproxyclient.cpp:748-763 | destroying a node leaves nothing running and stops it if and only if it was started |
| `NodeLife.StartGood` | packages/streamr-libstreamrproxyclient/src/streamrproxyclient.cpp:1010-1046 | a start leads from New to Running, or to Stopped if it fails |
| `NodeLife.NodeOpGood` | packages/streamr-libstreamrproxyclient/src/streamrproxyclient.cpp:986-1341 | every operation on a node keeps the phase invariant and the subscription table, and only moves forwards |
| `NodeLife.OpOrphans` | packages/streamr-libstreamrproxyclient/src/streamrproxyclient.cpp:1208-1268 | while a node is not stopped, only a subscribe that draws a handle in use leaves a listener without handle, and it leaves exactly one |
| `NodeLife.BijectionMeansNoOrphans` | packages/streamr-libstreamrproxyclient/src/streamrproxyclient.cpp:782-797 | on a running node, subscriptions and listeners are in bijection if and only if they are equally many |
| `NodeLife.SubscribeKeepsBijection` | packages/streamr-libstreamrproxyclient/src/streamrproxyclient.cpp:782-785 | a subscribe keeps the bijection if and only if its handle is new (`emplace` drops the token otherwise) |
| `NodeLife.UnsubscribeOnce` | packages/streamr-libstreamrproxyclient/src/streamrproxyclient.cpp:1247-1268 | unsubscribe removes one handle and one listener and nothing else; repeated at once it reports SUBSCRIPTION_NOT_FOUND and changes nothing |
| `NodeRuns.StepKeeps` | packages/streamr-libstreamrproxyclient/src/streamrproxyclient.cpp:902-1386 | every call keeps the library invariant and moves every wrapper forwards only |
| `NodeRuns.RunInv` | packages/streamr-libstreamrproxyclient/src/streamrproxyclient.cpp:902-1386 | after every serialized run, handles lead to their own wrappers, and a wrapper is alive if and only if its handle leads to it |
| `NodeRuns.NetworkProtocol` | packages/streamr-libstreamrproxyclient/src/streamrproxyclient.cpp:748-763 | after every run and for every wrapper ever made: at most one network start, before all else; at most one stop; the flags say exactly which; destroyed and started implies stopped |
| `NodeRuns.History` | packages/streamr-libstreamrproxyclient/src/streamrproxyclient.cpp:748-776 | from any point of a run to its end no wrapper is lost, traces only grow, phases never go back, destroyed wrappers never change |
| `NodeRuns.RefusedUnlessRunning` | packages/streamr-libstreamrproxyclient/src/streamrproxyclient.cpp:820-842 | join, leave, publish, subscribe, neighbour and proxy calls outside Running return NODE_NOT_STARTED or NODE_STOPPED and change nothing else |
| `NodeRuns.FailedStartIsFinal` | packages/streamr-libstreamrproxyclient/src/streamrproxyclient.cpp:1029-1047 | a failed start ends in Stopped after exactly one teardown, and in every continuation starts on that node are refused |
| `NodeRuns.CleanupKeeps` | packages/streamr-libstreamrproxyclient/src/streamrproxyclient.cpp:1370-1376 | cleanup destroys exactly the wrappers that were alive |
| `NodeLaws.StartLaw` | packages/streamr-libstreamrproxyclient/src/streamrproxyclient.cpp:986-1047 | from every reachable state: which of start, DHT join and stop reach the network, in which order and with which argument, the flags afterwards, and the one result, for each phase and outcome |
| `NodeLaws.StartAnswer` | packages/streamr-libstreamrproxyclient/src/streamrproxyclient.cpp:1027-1046 | a start from New answers without errors if and only if the node then runs, and otherwise with exactly one NODE_OPERATION_FAILED |
| `NodeLaws.StopLaw` | packages/streamr-libstreamrproxyclient/src/streamrproxyclient.cpp:1049-1073 | only a running node is stopped, once, and loses its listeners if that returns; the answer for each phase and outcome |
| `NodeLaws.RefusedWhileRunning` | packages/streamr-libstreamrproxyclient/src/streamrproxyclient.cpp:1176-1200 | a missing callback, a bad id and an uncaught parser exception are turned away before anything reaches the network |
| `NodeLaws.JoinLaw` | packages/streamr-libstreamrproxyclient/src/streamrproxyclient.cpp:1075-1113 | an admitted join sets the given entry points, if any, and then joins the named part, each only if what comes before went well; a bad entry point is reported and nothing reaches the network |
| `NodeLaws.LeaveLaw` | packages/streamr-libstreamrproxyclient/src/streamrproxyclient.cpp:1115-1139 | an admitted leave makes one network call for the named part |
| `NodeLaws.NeighborLaw` | packages/streamr-libstreamrproxyclient/src/streamrproxyclient.cpp:1270-1287 | an admitted query returns the count of the named part, or lets the exception pass |
| `NodeLaws.PublishLaw` | packages/streamr-libstreamrproxyclient/src/streamrproxyclient.cpp:1152-1173 | an admitted publish draws a number and, if the message can be built, broadcasts exactly the given bytes to the parsed stream and partition under that number |
| `NodeLaws.SubscribeLaw` | packages/streamr-libstreamrproxyclient/src/streamrproxyclient.cpp:1202-1244 | an admitted subscribe joins the part and installs one listener for exactly that part with the callback data under a new token, and returns the drawn handle |
| `NodeLaws.UnsubscribeLaw` | packages/streamr-libstreamrproxyclient/src/streamrproxyclient.cpp:1247-1268 | in every phase, exactly the handle and its listener go, or SUBSCRIPTION_NOT_FOUND |
| `NodeLaws.SetProxiesLaw` | packages/streamr-libstreamrproxyclient/src/streamrproxyclient.cpp:1304-1340 | direction 0 publishes and 1 subscribes, others are refused before the peers; the i-th descriptor comes from the i-th peer; count 0 means none given; the first bad peer is reported and nothing reaches the network |
| `NodeLaws.NewLaw` | packages/streamr-libstreamrproxyclient/src/streamrproxyclient.cpp:902-968 | the order of checks, the new wrapper behind the returned handle, isolated exactly without entry points and websocket port, and the end of a replaced one |
| `NodeLaws.DeleteLaw` | packages/streamr-libstreamrproxyclient/src/streamrproxyclient.cpp:970-984 | the handle is gone, its wrapper ended with a network stop exactly if it ran, and nothing else changed |
| `NodeLaws.UnknownHandleLaw` | packages/streamr-libstreamrproxyclient/src/streamrproxyclient.cpp:803-818 | every call on an unknown handle publishes one NODE_NOT_FOUND and changes nothing else |
| `NodeLaws.ConnectLaw` | packages/streamr-libstreamrproxyclient/src/streamrproxyclient.cpp:471-570 | three refusals in order; otherwise failed peers become errors and reached ones successes, in order, and their number is returned |
| `NodeLaws.ClientPublishLaw` | packages/streamr-libstreamrproxyclient/src/streamrproxyclient.cpp:664-721 | the client's number advances; failed peers become errors and reached ones successes; if sending throws, one error without a peer ends the failures so far |
| `NodeLaws.ClientLifeLaw` | packages/streamr-libstreamrproxyclient/src/streamrproxyclient.cpp:394-469 | creation and deletion of clients: order of checks, the registry afterwards, the answer |
| `NodeTraces.EveryNetworkCall` | packages/streamr-libstreamrproxyclient/src/streamrproxyclient.cpp:986-1341 | in every run, every network call on every node goes back to one call of the C API of the right kind, with that call's part, peers, direction, count, message and number |
| `NodeTraces.StartsAsConfigured` | packages/streamr-libstreamrproxyclient/src/streamrproxyclient.cpp:1011-1026 | in every run, a node joins the network as it starts if and only if its creation gave entry points or a websocket port; only otherwise, and right after, does it join its own DHT |
| `NodeTraces.NumbersAreCounted` | packages/streamr-libstreamrproxyclient/src/streamrproxyclient.cpp:778-780 | in every run, the next sequence number says how many were drawn, with the wrap-around of an int32_t |
| `NodeTraces.BroadcastOrigin` | packages/streamr-libstreamrproxyclient/src/streamrproxyclient.cpp:1152-1166 | in every run, every broadcast of a node is the message of one publish call under the number that this call drew |
| `NodeTraces.PublishLeavesBroadcast` | packages/streamr-libstreamrproxyclient/src/streamrproxyclient.cpp:1152-1166 | conversely, every publish call whose message was built has left its broadcast in the trace |
| `NodeTraces.BroadcastsInOrder` | packages/streamr-libstreamrproxyclient/src/streamrproxyclient.cpp:778-780 | broadcasts stand in the order of their calls, and later ones drew later numbers |
| `NodeTraces.PublishedIsDelivered` | packages/streamr-libstreamrproxyclient/src/streamrproxyclient.cpp:1152-1232 | in every run, what call k broadcast fires a listener subscribed by call l if and only if both name the same stream and partition; the callback gets its node's handle, the canonical id, exactly the bytes of call k and the data of call l |
| `NodeLedgers.OneResultUnlessEscaped` | packages/streamr-libstreamrproxyclient/src/streamrproxyclient.cpp:378-392 | every call publishes exactly one result at the new address and changes the live set by nothing else, unless an exception leaves it; that happens if and only if, after all earlier checks, the parser throws something other than std::invalid_argument or one of the three unguarded foreign calls throws; then only the record of network queries may have grown |
| `NodeLedgers.EmptyStreamIdEscapes` | packages/streamr-libstreamrproxyclient/src/streamrproxyclient.cpp:414-424 | a concrete call (empty stream id) that publishes no result |
| `NodeLedgers.LiveResults` | packages/streamr-libstreamrproxyclient/src/streamrproxyclient.cpp:378-392 | in every run a result is live if and only if some call returned it and no later call deleted it or cleaned up |
| `NodeLedgers.LiveResultKeepsContent` | packages/streamr-libstreamrproxyclient/src/streamrproxyclient.cpp:378-386 | a live result says what the call that returned it put there (as a value; ResultMemory.MemoryOfRun has the memory behind it) |
| `NodeLedgers.KnownHandles` | packages/streamr-libstreamrproxyclient/src/streamrproxyclient.cpp:964-984 | in every run a node handle is known if and only if an accepted creation returned it and no delete or cleanup came later |
| `NodeLedgers.OrphansAreCollisions` | packages/streamr-libstreamrproxyclient/src/streamrproxyclient.cpp:782-797 | in every run, until a node is stopped, its listeners without handle are as many as its handle collisions |
| `NodeLedgers.BijectionIffFreshHandles` | packages/streamr-libstreamrproxyclient/src/streamrproxyclient.cpp:782-797 | in every run, the subscriptions of a running node are in bijection with its listeners if and only if all its subscribes drew fresh handles |
| `NodeLedgers.CleanupStopsEverything` | packages/streamr-libstreamrproxyclient/src/streamrproxyclient.cpp:1370-1376 | when cleanup returns, every wrapper ever made is destroyed and each started one was stopped exactly once; a second cleanup changes nothing |
| `NodeDelivery.ListenerHasOrigin` | packages/streamr-libstreamrproxyclient/src/streamrproxyclient.cpp:1208-1235 | every installed listener goes back to one subscribe call of the run |
| `NodeDelivery.Delivery` | packages/streamr-libstreamrproxyclient/src/streamrproxyclient.cpp:1195-1232 | in every run, a message of any content for spelling a fires a listener subscribed under b if and only if both name the same stream and partition; the callback gets its node's handle, the bytes, the canonical id and its own data |
| `NodeDelivery.UnknownUntilDrawnAgain` | packages/streamr-libstreamrproxyclient/src/streamrproxyclient.cpp:787-797 | a subscription handle once unknown stays unknown until a subscribe draws it again |
| `NodeDelivery.SecondUnsubscribe` | packages/streamr-libstreamrproxyclient/src/streamrproxyclient.cpp:1247-1268 | however the run goes on, a second unsubscribe reports SUBSCRIPTION_NOT_FOUND and changes nothing, unless the handle was drawn again |
| `NodeApi.StreamrNodeWrapper.Stop` | packages/streamr-libstreamrproxyclient/src/streamrproxyclient.cpp:759-763 | the network stop is invoked by the call that flips `stopped`, and by no other |
| `NodeApi.StreamrNodeWrapper.Destructor` | packages/streamr-libstreamrproxyclient/src/streamrproxyclient.cpp:748-756 | stops if needed and lets no exception out |
| `NodeApi.StreamrNodeWrapper.TryStart` | packages/streamr-libstreamrproxyclient/src/streamrproxyclient.cpp:1010-1042 | start, or start without join plus own DHT join for an isolated node; on failure one teardown |
| `NodeApi.StreamrNodeWrapper.AddSubscription` | packages/streamr-libstreamrproxyclient/src/streamrproxyclient.cpp:782-785 | an existing entry wins |
| `NodeApi.StreamrNodeWrapper.TakeSubscription` | packages/streamr-libstreamrproxyclient/src/streamrproxyclient.cpp:787-797 | returns and removes the token of that handle only |
| `NodeApi.LibProxyClientApi.FindStreamrNode` | packages/streamr-libstreamrproxyclient/src/streamrproxyclient.cpp:803-818 | the wrapper of the handle, or a published NODE_NOT_FOUND |
| `NodeApi.LibProxyClientApi.CheckStreamrNodeRunning` | packages/streamr-libstreamrproxyclient/src/streamrproxyclient.cpp:820-842 | passes exactly running nodes; otherwise publishes the code of the phase |
| `NodeApi.LibProxyClientApi.ParseStreamPartIdChecked` | packages/streamr-libstreamrproxyclient/src/streamrproxyclient.cpp:844-863 | the canonical id, a published INVALID_STREAM_PART_ID, or an exception passing through |
| `NodeApi.LibProxyClientApi.StreamrNodeNew` | packages/streamr-libstreamrproxyclient/src/streamrproxyclient.cpp:902-968 | a new wrapper under the handle and the replaced one destroyed, or one published error and nothing else, or an exception of `createNetworkNode` and nothing else |
| `NodeApi.LibProxyClientApi.StreamrNodeDelete` | packages/streamr-libstreamrproxyclient/src/streamrproxyclient.cpp:970-984 | the handle is gone and its wrapper destroyed; an unknown handle is no error |
| `NodeApi.LibProxyClientApi.StreamrNodeStart` | packages/streamr-libstreamrproxyclient/src/streamrproxyclient.cpp:986-1047 | refines the start operation of the state machine, other nodes untouched |
| `NodeApi.LibProxyClientApi.StreamrNodeStop` | packages/streamr-libstreamrproxyclient/src/streamrproxyclient.cpp:1049-1073 | refines the stop operation, other nodes untouched |
| `NodeApi.LibProxyClientApi.StreamrNodeJoinStreamPart` | packages/streamr-libstreamrproxyclient/src/streamrproxyclient.cpp:1075-1113 | refines the join operation: all checks precede the network calls |
| `NodeApi.LibProxyClientApi.StreamrNodeLeaveStreamPart` | packages/streamr-libstreamrproxyclient/src/streamrproxyclient.cpp:1115-1139 | refines the leave operation |
| `NodeApi.LibProxyClientApi.StreamrNodePublish` | packages/streamr-libstreamrproxyclient/src/streamrproxyclient.cpp:1141-1174 | refines the publish operation; the sequence number is consumed even if building the message throws |
| `NodeApi.LibProxyClientApi.StreamrNodeSubscribe` | packages/streamr-libstreamrproxyclient/src/streamrproxyclient.cpp:1176-1245 | refines the subscribe operation |
| `NodeApi.LibProxyClientApi.StreamrNodeUnsubscribe` | packages/streamr-libstreamrproxyclient/src/streamrproxyclient.cpp:1247-1268 | refines the unsubscribe operation, in any phase |
| `NodeApi.LibProxyClientApi.StreamrNodeGetNeighborCount` | packages/streamr-libstreamrproxyclient/src/streamrproxyclient.cpp:1270-1287 | refines the neighbour operation |
| `NodeApi.LibProxyClientApi.StreamrNodeSetProxies` | packages/streamr-libstreamrproxyclient/src/streamrproxyclient.cpp:1289-1341 | refines the proxy operation; the direction is checked after the id and before the peers |
| `NodeApi.LibProxyClientApi.ProxyClientNew` | packages/streamr-libstreamrproxyclient/src/streamrproxyclient.cpp:394-461 | refines client creation with its two error codes and the escaping exception |
| `NodeApi.LibProxyClientApi.ProxyClientDelete` | packages/streamr-libstreamrproxyclient/src/streamrproxyclient.cpp:463-469 | removes the client if there is one |
| `NodeApi.LibProxyClientApi.ProxyClientConnect` | packages/streamr-libstreamrproxyclient/src/streamrproxyclient.cpp:471-570 | empty list, unknown client and bad peer are refused in this order; otherwise the result lists failed and reached peers in order, unless `setProxies` throws |
| `NodeApi.LibProxyClientApi.ProxyClientPublish` | packages/streamr-libstreamrproxyclient/src/streamrproxyclient.cpp:664-721 | a sequence number is consumed; the result lists failed and reached peers in order, or, if sending threw, the failures collected so far and one more error |
| `NodeApi.LibProxyClientApi.Destructor` | packages/streamr-libstreamrproxyclient/src/streamrproxyclient.cpp:1370-1376 | every wrapper in the map is destroyed, each once |
| `NodeApi.Globals.StreamrInitLibrary` | packages/streamr-libstreamrproxyclient/src/streamrproxyclient.cpp:1363-1368 | creates the instance only if there is none |
| `NodeApi.Globals.StreamrCleanupLibrary` | packages/streamr-libstreamrproxyclient/src/streamrproxyclient.cpp:1370-1376 | destroys the instance and its wrappers; nothing happens without an instance |
| `NodeApi.Globals.Perform` | packages/streamr-libstreamrproxyclient/src/streamrproxyclient.cpp:1378-1390 | every exported call, on the objects, does exactly one step of the state machine; the instance is never null when used |
| `NodeApi.Serve` | packages/streamr-libstreamrproxyclient/src/streamrproxyclient.cpp:1363-1390 | objects that serve any run end in the state the run leads to, so that the theorems on runs hold of them |
| `NodeWrapper.CheckedKeepsResults` | packages/streamr-libstreamrproxyclient/wrappers/cpp/include/StreamrNode.hpp:326-337 | a call with its result check leaves the live results as it found them, whether it returns, throws or lets an exception pass |
| `NodeWrapper.ThrownCodeIsReported` | packages/streamr-libstreamrproxyclient/wrappers/cpp/include/StreamrNode.hpp:71-98 | the thrown code is the reported one if and only if the call is not a `setProxies` on a running node whose first bad peer has a good address, since the error type lacks the code for URLs |
| `NodeWrapper.OwnershipKept` | packages/streamr-libstreamrproxyclient/wrappers/cpp/include/StreamrNode.hpp:244-259 | no call of the process, other than a subscribe on this node, puts a callback on it that its owner does not hold |
| `NodeWrapper.FailedSubscribeInstallsNothing` | packages/streamr-libstreamrproxyclient/wrappers/cpp/include/StreamrNode.hpp:244-259 | a subscribe that throws has installed no listener, so its callback may be freed |
| `NodeWrapper.NewNodeIsBare` | packages/streamr-libstreamrproxyclient/wrappers/cpp/include/StreamrNode.hpp:129-151 | creation returns its handle if and only if it is accepted, and then there are no listeners |
| `NodeWrapper.CheckResult` | packages/streamr-libstreamrproxyclient/wrappers/cpp/include/StreamrNode.hpp:326-337 | the result is deleted in both cases; the first error decides what is thrown |
| `NodeWrapper.StreamrNode.Create` | packages/streamr-libstreamrproxyclient/wrappers/cpp/include/StreamrNode.hpp:129-151 | an object exists if and only if a node was made; results are released |
| `NodeWrapper.StreamrNode.Do` | packages/streamr-libstreamrproxyclient/wrappers/cpp/include/StreamrNode.hpp:173-303 | `start`, `stop`, `joinStreamPart`, `leaveStreamPart`, `publish`, `unsubscribe`, `neighborCount`, `setProxies`: live results unchanged, callbacks stay owned |
| `NodeWrapper.StreamrNode.Subscribe` | packages/streamr-libstreamrproxyclient/wrappers/cpp/include/StreamrNode.hpp:244-259 | the callback is kept if and only if the call returns; every listener's callback stays owned |
| `NodeWrapper.StreamrNode.Destructor` | packages/streamr-libstreamrproxyclient/wrappers/cpp/include/StreamrNode.hpp:156-162 | releases the node and the result; with handle 0 nothing happens |
| `NodeLeaks.OrphanForever` | packages/streamr-libstreamrproxyclient/src/streamrproxyclient.cpp:782-797 | a listener that no handle leads to is never led to again and stays installed as long as the node runs |
| `NodeLeaks.CollisionHappens` | packages/streamr-libstreamrproxyclient/src/streamrproxyclient.cpp:1233-1236 | a concrete run in which two subscribes draw one handle and the second listener is orphaned |
| `NodeLeaks.DestructorSparesOnlyZero` | packages/streamr-libstreamrproxyclient/wrappers/cpp/include/StreamrNode.hpp:156-162 | the destructor destroys the node behind its handle if and only if the handle is not 0 |
| `NodeLeaks.ZeroHandleLeaks` | packages/streamr-libstreamrproxyclient/wrappers/cpp/include/StreamrNode.hpp:156-162 | a concrete run in which a node under handle 0 outlives its object, running and with a listener whose callback is gone |
| `NodeLeaks.BadProxyUrlIsRenamed` | packages/streamr-libstreamrproxyclient/wrappers/cpp/include/StreamrNode.hpp:71-98 | a concrete `setProxies` call whose code INVALID_PROXY_URL is thrown as another one |
| `ResultStorage.ProxyCpp.Copy` | packages/streamr-libstreamrproxyclient/src/streamrproxyclient.cpp:99-104 | a copy points into its own strings and reads the same |
| `ResultStorage.ProxyCpp.Move` | packages/streamr-libstreamrproxyclient/src/streamrproxyclient.cpp:106-111 | a moved-to object points into its own strings and reads what the source said before |
| `ResultStorage.ProxyCpp.Assign` | packages/streamr-libstreamrproxyclient/src/streamrproxyclient.cpp:113-122 | assignment, self-assignment included |
| `ResultStorage.ProxyCpp.MoveAssign` | packages/streamr-libstreamrproxyclient/src/streamrproxyclient.cpp:124-133 | move assignment, self-assignment included |
| `ResultStorage.ErrorCpp.Copy` | packages/streamr-libstreamrproxyclient/src/streamrproxyclient.cpp:160-168 | likewise for errors with an optional peer |
| `ResultStorage.ErrorCpp.Move` | packages/streamr-libstreamrproxyclient/src/streamrproxyclient.cpp:169-177 | likewise; the optional peer is moved along |
| `ResultStorage.ErrorCpp.Assign` | packages/streamr-libstreamrproxyclient/src/streamrproxyclient.cpp:178-190 | likewise for assignment; the source keeps its own storage |
| `ResultStorage.ErrorCpp.MoveAssign` | packages/streamr-libstreamrproxyclient/src/streamrproxyclient.cpp:192-204 | likewise, over an error that held a peer or none |
| `ResultStorage.ProxyResultCpp.constructor` | packages/streamr-libstreamrproxyclient/src/streamrproxyclient.cpp:217-234 | every pointer of a result leads into storage of that result, and reading gives the given errors and peers in order and number |
| `ResultStorage.ThroughChain` | packages/streamr-libstreamrproxyclient/src/streamrproxyclient.cpp:137-206 | any chain of copies, moves and assignments of an error delivers what the first object said and touches nothing outside its storage |
| `ResultRegistry.ThroughChains` | packages/streamr-libstreamrproxyclient/src/streamrproxyclient.cpp:85-206 | the same for a list, each object with a chain of its own; order, number and separateness are kept |
| `ResultRegistry.PublishAfterChains` | packages/streamr-libstreamrproxyclient/src/streamrproxyclient.cpp:85-238 | a result built from the last objects of all chains reads the error and peer lists of the first ones, in order and number |
| `ResultRegistry.Registry.AddResult` | packages/streamr-libstreamrproxyclient/src/streamrproxyclient.cpp:378-386 | the new result reads its arguments and every other live result reads as before |
| `ResultRegistry.Registry.Delete` | packages/streamr-libstreamrproxyclient/src/streamrproxyclient.cpp:389-392 | freed memory may be overwritten, and every other live result reads as before |
| `ResultRegistry.Registry.HandOn` | packages/streamr-libstreamrproxyclient/src/streamrproxyclient.cpp:137-206 | passing on objects outside the registry, in any way, changes no live result |
| `ResultRegistry.Registry.Publish` | packages/streamr-libstreamrproxyclient/src/streamrproxyclient.cpp:85-238 | publishing in the middle of the life of the source objects, which are handed over before and after |
| `ResultRegistry.Replay` | packages/streamr-libstreamrproxyclient/src/streamrproxyclient.cpp:378-392 | after every history of publications, hand-overs, deletions and cleanups, each live address reads what was published there |
| `ResultMemory.BookOfRun` | packages/streamr-libstreamrproxyclient/src/streamrproxyclient.cpp:378-392 | the results of every run of the C API are what that history says |
| `ResultMemory.MemoryOfRun` | packages/streamr-libstreamrproxyclient/src/streamrproxyclient.cpp:378-392 | so for every run, the memory behind each live address reads exactly what the state machine says, and no other address is live |
| `PeerList.ParsePeersOutcome` | packages/streamr-libstreamrproxyclient/src/streamrproxyclient.cpp:868-899 | success if and only if every peer is valid, i-th descriptor from i-th peer; otherwise one error for the smallest bad index, the address fault before the URL fault |
| `PeerList.ParsePeerList` | packages/streamr-libstreamrproxyclient/src/streamrproxyclient.cpp:868-899 | the loop has that outcome |
| `PeerList.ConnectPeers` | packages/streamr-libstreamrproxyclient/src/streamrproxyclient.cpp:505-528 | the inline loop of `proxyClientConnect` has the same outcome on every non-empty array |
| `StreamPart.ParseOfDigits` | packages/streamr-utils/modules/StreamPartID.cppm:33-67 | which of the three outcomes an id written with digits has, leading zeros and overlong numbers included |
| `StreamPart.UncaughtExactlyWhen` | packages/streamr-utils/modules/StreamPartID.cppm:33-67 | for every string: an exception that callers do not catch if and only if there is a last # with text after it, and that text is a number out of range, or it is a number and the text before is no stream id |
| `StreamPart.OutOfRangeExactlyWhen` | packages/streamr-utils/modules/StreamPartID.cppm:66 | with any blanks, sign and trailing text, a number is out of range if and only if its digits are worth 2^64 or more |
| `StreamPart.AcceptedStreamIds` | packages/streamr-utils/modules/StreamID.cppm:37-70 | ids with a path are accepted if and only if the domain has a dot or is an Ethereum address; others if and only if not empty |
| `StreamPart.AddressesAreHex` | packages/streamr-utils/modules/EthereumAddress.cppm:20-32 | an address is 0x followed by exactly forty hexadecimal digits |
| `StreamPart.ParseSpell` | packages/streamr-utils/modules/StreamPartID.cppm:25-43 | parsing undoes spelling on every valid part |
| `StreamPart.CanonicalIsIdempotent` | packages/streamr-libstreamrproxyclient/src/streamrproxyclient.cpp:844-863 | canonicalizing twice is canonicalizing once, and the part is kept |
| `StreamPart.SameCanonicalForm` | packages/streamr-libstreamrproxyclient/src/streamrproxyclient.cpp:844-863 | two accepted spellings share a canonical form if and only if they name the same stream and partition |
| `StreamPart.WrittenPartitionSurvives` | packages/streamr-utils/modules/StreamPartID.cppm:60-67 | the number as written survives if and only if it is below 100 |
| `StreamPart.TruncatedPartition` | packages/streamr-utils/modules/StreamPartID.cppm:60-67 | a number 2^32 too large is accepted as the partition it is cut to |
| `StreamPart.PublishReachesSubscription` | packages/streamr-libstreamrproxyclient/src/streamrproxyclient.cpp:574-606 | publisher and listener agree on stream and partition if and only if the spellings do; the message goes into the overlay of the canonical id |
| `StreamPrinter.Dump` | packages/streamr-proto-rpc/src/StreamPrinter.hpp:24-44 | one round writes as much as fits and backs up the rest |
| `StreamPrinter.Print` | packages/streamr-proto-rpc/src/StreamPrinter.hpp:20-46 | for every sequence of buffers with enough room in all: exactly the input is committed, by exactly the expected calls, in exactly as many rounds as `Dumped` needs |
| `StreamPrinter.PrintRounds` | packages/streamr-proto-rpc/src/StreamPrinter.hpp:20-46 | on any stream, after any number of rounds the loop has committed exactly the first `Dumped` bytes, and it ends early only when that is everything |
| `StreamPrinter.BackUpIsLastAndProper` | packages/streamr-proto-rpc/src/StreamPrinter.hpp:38-41 | at most one BackUp, as the last call, of more than nothing and less than the buffer |
| `StreamPrinter.LoopEndsIffEnoughOffered` | packages/streamr-proto-rpc/src/StreamPrinter.hpp:23-45 | some number of rounds of the loop writes everything if and only if the stream offers enough bytes at some point |
| `StreamPrinter.FailingStreamNeverEnds` | packages/streamr-proto-rpc/src/StreamPrinter.hpp:23-45 | on a stream whose Next always fails no number of rounds writes anything |
| `StreamPrinter.WriteModule` | packages/streamr-proto-rpc/src/PluginCodeGenerator.hpp:199-211 | two prints commit header followed by source |
| `PluginPaths.StripAndBasenameCommute` | packages/streamr-proto-rpc/src/PluginCodeGenerator.hpp:65-93 | stripping the extension and taking the basename commute on every path |
| `PluginPaths.OrdinaryPath` | packages/streamr-proto-rpc/src/PluginCodeGenerator.hpp:65-93 | on directories, either slash, a name and an extension, the two functions give the name, and the path without the extension |
| `PluginPaths.PrefixIsExactlyTheValue` | packages/streamr-proto-rpc/src/PluginCodeGenerator.hpp:48-63 | the value after the first key, up to a comma or the end |
| `PluginPaths.DocumentedParameter` | packages/streamr-proto-rpc/src/PluginCodeGenerator.hpp:44-63 | the documented parameter gives its value |
| `PluginPaths.FirstOccurrence` | packages/streamr-proto-rpc/src/PluginCodeGenerator.hpp:48-52 | the key cannot be found earlier by overlapping text in front of it |
| `PluginPaths.SilentFailure` | packages/streamr-proto-rpc/src/PluginCodeGenerator.hpp:48-63 | an empty prefix without error message if and only if the key is given with an empty value |
| `PluginPaths.KeyAloneFailsSilently` | packages/streamr-proto-rpc/src/PluginCodeGenerator.hpp:48-63 | the key alone gives an empty prefix and no error message |
| `ClangFormat.PruningIsFiltering` | run-clang-format.py:61-90 | on every tree, the pruned walk lists what filtering the full walk by file and ancestors would list, in walk order |
| `ClangFormat.Prune` | run-clang-format.py:72-83 | pattern by pattern trimming keeps exactly the names no pattern matches |
| `ClangFormat.WalkDirectory` | run-clang-format.py:70-87 | the walk loop appends exactly that list |
| `ClangFormat.ListFiles` | run-clang-format.py:61-90 | the loop over all arguments, in order; TreePaths says which paths these are |
| `TreePaths.ListedExactly` | run-clang-format.py:61-90 | for a directory, a path is listed if and only if it is the root followed by names that lead to a file with a listed extension, and neither it nor a directory on the way is excluded |
| `TreePaths.ListedPathsLead` | run-clang-format.py:71 | every listed path is the root, a slash, and names between slashes which, looked up one by one, lead to a file |
| `TreePaths.NoPathTwice` | run-clang-format.py:67-90 | no path is listed twice for a directory |
| `TreePaths.PlainArguments` | run-clang-format.py:88-89 | other arguments are listed as they are |
| `TreePaths.ArgumentsInOrder` | run-clang-format.py:67-90 | arguments are listed one after the other |
| `ClangFormat.ExitCode` | run-clang-format.py:375-404 | sequential and parallel loop both return the worst severity over all files: 0 if and only if nothing differs, 2 if and only if some file gave an error |
| `ClangFormat.WorstBounds` | run-clang-format.py:375-404 | that is the maximum: an upper bound that is attained |
| `ClangFormat.WorstOfPrefix` | run-clang-format.py:377-393 | stopping at trouble loses nothing |
| `ClangFormat.ArrivalOrderIrrelevant` | run-clang-format.py:360-404 | the code is the same for every permutation of arrivals |

## Left out

- Regular expressions, fnmatch, file reading, URL parsing (host, port and TLS of a descriptor), hexadecimal conversion, signing, clock and logging are foreign: a header text is given by the facts extracted from it, a URL by whether it parses, a message by stream, partition and content.
- DHT, overlay and RPC internals: a network call is an entry in the node's trace; delivery is modelled from the dispatch to a node's listeners on.
- Calls that run concurrently with `streamrCleanupLibrary`, and concurrent access to the result map, the subscription table and the proxy clients; the interleaving model covers the node registry, the flags and the wrapper's lifetime.
- In the interleaving model a wrapper replaced under its own handle is dropped outside the lock, which allows more schedules than the code.
- Exceptions that are not std::exception, and exceptions of `removeMessageListener`, which only takes a lock and filters a list (packages/streamr-eventemitter/modules/EventEmitter.cppm, lines 393 to 408).
- NodeApi.LibProxyClientApi.ProxyClientNew: a client is known by its next sequence number only; transport, connection manager and client start are foreign and leave no trace.
- NodeApi.LibProxyClientApi.ProxyClientDelete: the stops in the client's destructor leave no trace either.
- NodeApi.LibProxyClientApi.ProxyClientConnect: which peers were reached is an argument, already converted back to addresses; the `setProxies` call leaves no trace.
- NodeLedgers.LiveResultKeepsContent: over values; the memory is in ResultMemory and ResultRegistry.
- TreePaths.ListedExactly: for a root without a trailing slash and names as a file system has them.
- The texts of error messages in the state machine (in memory they are whatever a wording function makes of a failure), and null pointers passed in place of strings.
- The sorted order of start headers is generalized to any enumeration; Python's recursion limit is ignored.
- Symbolic links and errors during the directory walk; process pools, diff texts and colours.
- The generated C++ text of the plugin, and the ownership that StreamPrinter is said to take of its stream (it never deletes it).
- NodeWrapper.StreamrNode.Do: one method stands for the eight methods that differ only in the C function they call; the copying of address vectors into C arrays is not modelled.
- StreamPrinter.Print: requires that enough bytes are offered, because otherwise the loop does not end (see `LoopEndsIffEnoughOffered`).
- Swift, Kotlin, Go, Python and JNI wrappers, examples and user interfaces.
