# A verified model of wbgo

wbgo puts devices on an MQTT bus. A `Driver` keeps a map of devices, a cache of the device behind
each value topic, the `/on` subscriptions of its writable controls, order counters and a list of
topics to clear; an MQTT client keeps tables it replays after a reconnection and a barrier that
says when all retained messages have arrived; a `DeferredList` puts work off until that moment; a
`DirWatcher` keeps its client's idea of which files are loaded in step with a file tree; an RPC
server answers JSON-RPC requests that arrive on topics. All of this is state kept in parallel
tables. The project models these parts and proves that the tables agree with each other, and with
an independent reading of the history, over every run.

## How it is built

Every stateful part comes in two forms that are proved equal. The `...Spec` modules give each
operation as a function on values, so that runs (sequences of events of any length) can be
reasoned about, and is in turn compared with reference functions that read the expected outcome off
the history alone (`...By`, `...For`, `...Due`). The `...Object` modules, and the classes `Client` and `Barrier`, are the objects
themselves: fields, loops, early returns, shared mutable operation and cache entries. Each method
states its whole new state as the function of its old state.

| files | part |
|---|---|
| Topics, Messages | topic splitting and the filter matcher; messages and a broker's retained store |
| DriverSpec, Driver | the driver as a step function and as an object |
| DriverTopics, DriverFrames | what topics split into; what each step leaves alone |
| DriverCache | the cache against a driver that looks every device up afresh; who receives values |
| DriverFlags, DriverHistory | readiness and activity, the device map and every call into the model, read off the history |
| DriverSubscriptions | `/on` filters, absence of handler panics, order numbers |
| DriverCleanup, DriverDeclarations | topics cleared on stop; what a declaration publishes and restores |
| DriverMetadata, DriverPublications | a declaration's messages topic by topic; what every other event publishes |
| PahoClient, ReadyBarrier | tables replayed on reconnection; the two-sentinel barrier |
| Deferred, DeferredList | the `WhenReady` protocol as a machine of lock-sized steps, and its objects |
| Paths, WatcherSpec, Watcher | subpath test and path order; the watcher as functions and as an object |
| WatcherTrees, WatcherLoads | file trees, what loading from them adds and what the client is told |
| WatcherRuns, WatcherConvergence, WatcherEvents | the watcher over whole runs, batches of operations against a tree, and the event logs behind them |
| RpcTopics, RpcSpec, RpcServer, RpcReplies | request routing; parsing and replying; the server object; what clients can rely on |

`DriverSpec.Event` lists what can happen to a driver; every event is atomic. A device is local
(virtual or tied to hardware) or external. What `AddExternalDevice` answers, whether an
`AcceptOnValue` asks for an echo, and whether a control maximum parses are carried by the events.
`DriverSpec.Enabled` holds what the driver relies on: names without `/`, `+` and `#`, controls
declared on the device registered under its name, messages delivered only through a live filter.
`CacheTransparent`, `HardwareNeverAccepts`, `OnlyExternalAcceptsWhenReady`, `CleanupCoversRetained`
and `StopLeavesNothing` do not need even that. One more assumption is built in: the model of a driver
that accepts external devices is an `ExtendedModel`, without which the assertion at driver.go:449
would panic.

A batch of watcher events is judged (`WatcherConvergence.Accounts`, `Healthy`) against a readable tree
that stands still, from a table with no path below another, with removals that name only paths that
are gone.

## Where the code and what one might expect of it differ

- `IsSubpath` also accepts the immediate parent of its base, because the relative path is then
  exactly `..`, which does not begin with `../` (util.go:102). `Paths.IsSubpathExactly` states
  this, `WatcherConvergence.RemovalDropsExistingFileIff` gives the exact case in which a removal
  therefore drops a file that still exists, and `WatcherConvergence.ConvergesInAnyOrderIff` exactly
  which batches of events nevertheless converge in whatever order they come.
- An explicit control order may repeat an earlier one: `DriverSubscriptions.OrderIsFreshIff` says
  exactly when it exceeds all earlier ones, `DriverDeclarations.ExplicitOrderMayRepeat` gives a run
  in which two controls are published with the same order.
- `PublishSync` goes past the retained table, so topics that the driver clears when it stops come
  back with the next replay (`PahoClient.SyncKeepsInStepIff`, `PahoClient.ReplayUndoesSyncClearing`).
- Loading a directory resets the explicit mark of files strictly below it, but only of those the
  pattern accepts, which need no mark (dirwatcher.go:187-198, `WatcherTrees.MarkIsLostIff`).
- A parse error is meant to carry a null id. When the method exists and the id is an array or an
  object that holds a number out of range, the half-decoded id is sent instead
  (`RpcReplies.IdDiscipline`, `RpcReplies.SpoiledIdComesBack`).
- Under the fake broker's matcher an application name with a level `#` makes the RPC server receive
  its own replies and announcements (`RpcTopics.RepliesStayOutIff`, `RpcTopics.AnnouncementIsNoRequest`).
  A broker that follows section 4.7.1.2 of MQTT 3.1.1 refuses such a filter, since `#` is not its
  last level.
- `validateId` accepts null, but an id that is null never reaches it: it decodes to a nil pointer
  and counts as missing (rpc.go:376).

## Model

| member | source | states |
|---|---|---|
| Topics.JoinSplit | testutils/fake_mqtt.go:27-29 | joining the levels of a topic gives the topic back, and no level holds a slash |
| Topics.SplitJoin | testutils/fake_mqtt.go:27-29 | splitting undoes joining for every non-empty list of slash-free levels |
| Topics.SplitConcat | testutils/fake_mqtt.go:27-29 | the levels of two topics glued with a slash are those of the first followed by those of the second |
| Topics.MatcherMeetsStandard | testutils/fake_mqtt.go:13-25 | the recursive matcher accepts exactly what section 4.7.1 of MQTT 3.1.1 says, extended to filters with `#` before the last level: the levels before the first `#` match one by one, and without `#` the lengths agree |
| Topics.LiteralMatchesItself | testutils/fake_mqtt.go:13-29 | a filter without wildcard levels matches its own spelling and nothing else |
| Messages.StoreHoldsLastRetained | driver.go:263-267 | what a broker retains on a topic is decided by the last retained message on it, absent if that message was empty (section 3.3.1.3 of MQTT 3.1.1) |
| DriverTopics.ControlTopicParts | driver.go:269-277 | a built control topic splits back into its device, control and trailing levels |
| DriverTopics.ControlTopicInjective | driver.go:274-277 | two device and control pairs never share a control topic |
| DriverTopics.ControlTopicOf | driver.go:504-508 | a topic of that shape is the control topic of the names a handler reads off it |
| DriverTopics.FilterText | driver.go:615-618 | each of the four feeds is the filter the driver spells out for it |
| DriverTopics.FourFilters | driver.go:614-619 | these four filters are what an accepting driver subscribes to besides its `/on` topics |
| DriverTopics.FeedDelivery | driver.go:476-508 | whatever a feed's filter matches has every level its handler indexes, and its levels alone identify the feed |
| DriverTopics.OnDelivery | driver.go:476-478 | an `/on` filter matches only its own topic, so the handler reads back exactly the names it was built from |
| DriverTopics.FiltersDisjoint | driver.go:415-420 | no topic is matched by two different filters that a driver ever subscribes to |
| DriverSubscriptions.OneFilterPerMessage | driver.go:614-619 | in every reachable state at most one live filter matches a message |
| DriverCache.HandleValueAgrees | driver.go:500-538 | on one message the cached handler does what a fresh lookup would do, and keeps every cache entry right |
| DriverCache.CacheTransparent | driver.go:303-538 | over every run the cached driver has the same state, published messages and calls into the model, in the same order, as one that looks every device up afresh |
| DriverHistory.CallsFollowHistory | driver.go:439-573 | over every run the device map and the log of calls into the model are those that history asks for: which calls, on which device, with which arguments, in which order |
| DriverHistory.ValueIsDelivered | driver.go:500-538 | in a reachable state a value message makes a registered external device, or before readiness a virtual one, accept the value under the control's name; any other registered device gets nothing; for an unknown name an accepting driver asks the model and passes the value to what it answers |
| DriverHistory.LookupExplained | driver.go:439-468 | a lookup asks the model exactly for unknown names of an accepting driver, registers what it answers, and finds what is then registered |
| DriverFlags.FlagsFollowHistory | driver.go:598-659 | the driver is ready exactly when the client has reported readiness, and active exactly when it was started and not stopped since |
| DriverCache.HardwareNeverAccepts | driver.go:470-573 | in no run does a local device tied to hardware receive AcceptValue, an external one AcceptOnValue, or a local one a title, type or range that came over MQTT |
| DriverCache.OnlyExternalAcceptsWhenReady | driver.go:516-537 | once the client has reported readiness no local device receives AcceptValue, whatever was cached earlier |
| DriverCache.ReceivedIsLastValue | driver.go:500-515 | what a topic's entry remembers is the payload of the last value message of the whole run for that device and control |
| DriverSubscriptions.ForgetRemovesOwnFilters | driver.go:309-325 | removing a local device drops the `/on` filters of its own listed controls and no others |
| DriverSubscriptions.SubscriptionsMatchDeclarations | driver.go:309-341 | in every reachable state the broker holds the feeds, once subscribed, and one `/on` filter for each control declared writable since its device was registered, all on registered local devices |
| DriverSubscriptions.OnMessageFindsLocalDevice | driver.go:470-487 | a message on a live `/on` filter names a declared control of a registered local device, and reaches it |
| DriverSubscriptions.NoHandlerFails | driver.go:470-573 | in no valid run does a handler index past its topic's levels or fail its assertion that the device is local |
| DriverSubscriptions.CountersExceedOrders | driver.go:374-407 | after every run a local device's counter is one more than the largest order declared on it since registration |
| DriverSubscriptions.CountersAreOfLocals | driver.go:322-335 | in every reachable state exactly the registered local devices have an order counter |
| DriverSubscriptions.OrderIsFreshIff | driver.go:375-380 | a declaration's order exceeds all earlier ones of its device exactly when it is automatic or reaches the counter |
| DriverCleanup.CleanupCoversRetained | driver.go:253-301 | after every run each topic ever published on with the retain flag is in the cleanup list, which has no duplicates |
| DriverCleanup.ClearingRemoves | driver.go:263-267 | the cleanup messages remove exactly the listed topics from a retained store |
| DriverCleanup.StopLeavesNothing | driver.go:649-659 | stopping a driver that was started and not stopped since leaves no retained message on any topic it ever retained on, and every other topic as it was; stopping another does nothing |
| DriverPublications.StopPublishes | driver.go:263-267 | stopping a running driver publishes one empty retained message on each listed topic and nothing else |
| DriverDeclarations.DeclarationPublishes | driver.go:382-413 | a declaration publishes the control's metadata, and after it the value if the control is retained |
| DriverMetadata.DeclarationAnnounces | driver.go:382-413 | in a reachable state a declaration publishes on each topic below the control's own exactly what the control calls for, and nothing anywhere else: type, order, title, units and maximum if there are any, the read-only mark exactly on read-only controls, the writable mark exactly on writable ones, the value exactly of controls neither forgotten nor push buttons |
| DriverPublications.RetainFollowsHistory | driver.go:288-292 | whether a control's values go out as retained is decided by its last declaration in the whole run |
| DriverPublications.EventPublishes | driver.go:327-341 | what each other event publishes, by topic, payload and flag: titles of local devices, values on the control's or the `/on` topic, errors, echoes, and nothing else |
| DriverPublications.StoreFollowsMessages | driver.go:279-286 | the broker's retained store after each event is what the messages published by it have made of the one before |
| DriverDeclarations.ItoaReadsBack | driver.go:400 | the order's decimal text reads back as the order |
| DriverDeclarations.OrderIsPublished | driver.go:375-407 | among the messages of a declaration itself is the order that is counted, in text that reads back as it |
| DriverDeclarations.TypeAndUnitsSplitAtColon | driver.go:382-392 | explicit units are sent as they are; without them, type and units put together again around the first colon are the control's type |
| DriverDeclarations.ValueRestored | driver.go:362-372 | a redeclared control publishes and returns the last value handled in the whole run, through all removals and cache clears, exactly when the driver was started and not stopped, the device virtual, the control retained and a value was handled |
| DriverDeclarations.ExplicitOrderRepeats | driver.go:376-378 | after any run two controls declared with the same explicit order are counted and published with it, each by its own declaration |
| DriverDeclarations.ExplicitOrderMayRepeat | driver.go:376-378 | a concrete run that publishes the order 5 for two controls |
| DriverObject.DriverTopic.ResetDevice | driver.go:180-184 | the cached device and its flags go, the received value stays |
| DriverObject.Driver.AddCleanupTopic | driver.go:253-261 | the search loop appends the topic only if it is not listed |
| DriverObject.Driver.PublishMeta | driver.go:279-286 | a retained message is published and its topic listed for cleanup |
| DriverObject.Driver.PublishValue | driver.go:288-292 | the value goes out with the retain flag recorded for its topic |
| DriverObject.Driver.PerformCleanup | driver.go:263-267 | the loop publishes an empty retained message on each listed topic in order |
| DriverObject.Driver.ClearTopicDevCache | driver.go:303-307 | resetting the entry objects in place clears every device and keeps every received value |
| DriverObject.Driver.RemoveDevice | driver.go:309-325 | the new state is that of the removal event, its unsubscribing loop included |
| DriverObject.Driver.OnNewDevice | driver.go:327-341 | the new state is that of the registration event, an earlier device of that name removed first |
| DriverObject.Driver.OnNewControl | driver.go:362-425 | the new state is that of the declaration event, and the value returned is the one declared or restored |
| DriverObject.Driver.OnValue | driver.go:427-433 | an external device's value goes to its `/on` topic, a local one's to its own |
| DriverObject.Driver.OnError | driver.go:435-437 | the error is published as retained metadata |
| DriverObject.Driver.EnsureDevice | driver.go:439-456 | the registered device, or the one the model adds, or none |
| DriverObject.Driver.EnsureExtDevice | driver.go:458-468 | the same, with local devices turned into none |
| DriverObject.Driver.HandleIncomingControlOnValue | driver.go:470-487 | the new state is that of the `/on` message event |
| DriverObject.Driver.HandleDeviceTitle | driver.go:489-498 | the new state is that of the title message event |
| DriverObject.Driver.HandleIncomingControlValue | driver.go:500-538 | through shared entry objects, the new state is that of the value message event |
| DriverObject.Driver.HandleExternalControlType | driver.go:540-552 | the new state is that of the type message event |
| DriverObject.Driver.HandleExternalControlMax | driver.go:554-573 | the new state is that of the maximum message event, an unparsable maximum included |
| DriverObject.Driver.PublishOnValue | driver.go:294-301 | the value goes to the control's `/on` topic without the retain flag |
| DriverObject.Driver.FinishStart | driver.go:614-619 | an accepting driver subscribes to the four feeds, another to none |
| DriverObject.Driver.Stop | driver.go:649-659 | an active driver clears its listed topics and becomes inactive, an inactive one does nothing |
| PahoClient.Client.Publish | mqtt.go:173-187 | the message is sent, and a retained one replaces or removes its topic's entry |
| PahoClient.Client.PublishSync | mqtt.go:189-196 | the message is sent and the retained table is left alone |
| PahoClient.Client.Subscribe | mqtt.go:218-234 | the callback is appended for each topic, and the broker told only while connected |
| PahoClient.Client.Unsubscribe | mqtt.go:236-247 | the topics' entries go, and the broker is told only while connected |
| PahoClient.Client.OnConnectionLost | mqtt.go:83-88 | the client is disconnected, and with a clean session its filters are gone |
| PahoClient.Client.OnConnect | mqtt.go:62-81 | the loops over both tables re-establish every filter and publish every retained message once, in some order |
| PahoClient.ReplayRebuilds | mqtt.go:74-79 | replay in any order builds, in an empty broker, the very store the full history would have built; in any other broker exactly when that holds no further topic |
| PahoClient.ReplayKeepsTable | mqtt.go:74-79 | replay goes through Publish and still leaves the table as it was |
| PahoClient.SyncKeepsInStepIff | mqtt.go:189-196 | exactly which messages can be sent past the table without it going stale |
| PahoClient.ReplayUndoesSyncClearing | mqtt.go:74-79 | topics cleared past the table are all back after the next replay |
| PahoClient.ReconnectRestores | mqtt.go:62-88 | over every run of subscriptions, publications of both kinds, losses and connections the broker's filters while connected are those of the table, each topic has the callbacks subscribed since its last unsubscription, and the broker holds the whole retained table unless something was sent past it since its last replay |
| PahoClient.BrokerFollowsHistory | mqtt.go:62-88 | over every run the client is connected exactly after a connection not lost since, and the broker's store is what the messages published meanwhile through both methods, and each replay, have made of it |
| ReadyBarrier.Barrier.Receive | mqtt.go:106-121 | the sentinel callback records which sentinel came, and closes and unsubscribes when it completes the pair |
| ReadyBarrier.BarrierHolds | mqtt.go:90-134 | under every interleaving of the two queues and every redelivery `ready` is closed at most once, exactly when both sentinels have come, and every message queued ahead of them has reached its callback, copies counted |
| ReadyBarrier.OnceWithoutRedelivery | mqtt.go:207-213 | where the broker delivers nothing again, each message taken off the queues reaches its callback exactly once |
| ReadyBarrier.ClosedByLastSentinel | mqtt.go:107-120 | the delivery that closes `ready` is the first delivery of the later sentinel |
| Deferred.OnePlaceEach | util.go:52-75 | in every reachable state each thunk is in exactly one of deferred, being drained, in flight, queued or run, and there exactly once |
| Deferred.QuietMeansDone | util.go:67-75 | once the loop is serving, its queue empty and nothing in flight, everything submitted has run |
| Deferred.CanAlwaysFinish | util.go:52-75 | from every reachable state the protocol can, with nothing more submitted, reach the state where everything has run |
| Deferred.EarlyRunsFirst | driver.go:621-645 | nothing given to WhenReady runs before the client is ready; what was given before the list was taken runs in that order, ahead of everything given later |
| Deferred.LateRunsInQueueOrder | util.go:52-65 | what is given to WhenReady later runs in the order in which it reached the loop's queue |
| DeferredListObject.DeferredList.MaybeDefer | util.go:52-65 | undisturbed, the call is the locked check followed, if the list is gone, by the hand-over to the queue |
| DeferredListObject.DeferredList.Ready | util.go:67-75 | the list is taken, and the loop runs what was in it, in order |
| DeferredListObject.EventLoop.RunNext | driver.go:641-642 | the thunk at the head of the queue runs, alone |
| DeferredListObject.EventLoop.BecomeReady | driver.go:625-628 | undisturbed, readiness is the taking of the list, all its thunks, and the switch to serving |
| Paths.PathStringInjective | util.go:96-106 | clean paths with the same text have the same components |
| Paths.IsSubpathExactly | util.go:96-106 | the test accepts a path exactly when it is at or below the base or is the base's immediate parent, whose relative path is `..` |
| Paths.SortPathsSorts | dirwatcher.go:239 | sorting gives the same paths in Go's string order |
| Paths.SortedIsUnique | dirwatcher.go:234-239 | the sorted list does not depend on the order in which the map was visited |
| WatcherSpec.CoalescedStep | dirwatcher.go:86-93 | one more event retypes the pending operation on its path in place, or appends one |
| WatcherSpec.FirstOccurrencesAreThePaths | dirwatcher.go:81-93 | the pending paths are those of the events, each once |
| WatcherObject.DirWatcher.RegisterFSEvent | dirwatcher.go:81-93 | the list holds each path once in order of first occurrence with the type of its last event, and the map holds the same objects, so that retyping through the map is seen in the list |
| WatcherObject.DirWatcher.ResetOps | dirwatcher.go:76-79 | map and list are empty again |
| WatcherObject.DirWatcher.LoadFile | dirwatcher.go:197-205 | the path is entered with its mark, and the client told to load or reload it |
| WatcherObject.DirWatcher.LoadDir | dirwatcher.go:171-195 | the loop over a listing loads matching files and descends into directories, in order |
| WatcherObject.DirWatcher.DoLoad | dirwatcher.go:207-224 | a missing path, a directory, an explicit or matching file and any other file are each treated in their own way |
| WatcherObject.DirWatcher.Load | dirwatcher.go:245-249 | a path named by the user is loaded as explicit, for the first time |
| WatcherObject.DirWatcher.ProcessOp | dirwatcher.go:103-125 | a change keeps the explicit mark of a loaded path, a removal removes |
| WatcherObject.DirWatcher.RemovePath | dirwatcher.go:226-243 | the recursion ends, its inner calls all take the direct branch, and the table and calls are those of an exact removal |
| WatcherObject.DirWatcher.ProcessEvents | dirwatcher.go:127-132 | a batch is the coalesced events processed in order, after which nothing is pending; if the events account for the tree and are harmless the table then holds exactly the wanted files |
| WatcherRuns.TableIsClientView | dirwatcher.go:103-249 | over every run, the tree changing at will, a path is in the table exactly when the last call about it was a load, only loaded paths are reported removed, and every entry matches the pattern or is explicit |
| WatcherRuns.LoadedFileIsReloaded | dirwatcher.go:109-118 | a change to a loaded path that is a regular file makes the one call LiveLoadFile on it and leaves the table as it was |
| WatcherLoads.LoadTells | dirwatcher.go:171-224 | loading a path tells the client of each regular file there is to load at or below it, once, and of nothing else |
| WatcherLoads.RequestTells | dirwatcher.go:103-118 | a load the user asks for tells LoadFile and counts the path itself as wanted; a change tells LiveLoadFile and does so only for a marked path |
| WatcherEvents.PendingByLastEvent | dirwatcher.go:82-93 | a pending operation is a removal exactly when the last event on its path has mask 4 or 8 and no other bit, and a change otherwise |
| WatcherEvents.EventsConvergeIff | dirwatcher.go:81-132 | an event log whose last events account for the difference between table and tree converges in every order if and only if its removals are harmless, and then leaves exactly the existing files that were loaded or match |
| WatcherEvents.ChangeEventReloads | dirwatcher.go:82-118 | a single event of another mask on a loaded regular file reloads it and drops nothing |
| WatcherRuns.RemovalIsExact | dirwatcher.go:226-243 | removing an unloaded path reports each loaded path the subpath test accepts, once, in sorted order, and nothing else |
| WatcherTrees.ChangeAdds | dirwatcher.go:171-224 | a change adds to the table exactly the matching regular files at or below its path, and leaves marked exactly what was marked and not loaded again from a directory |
| WatcherTrees.MarkIsLostIff | dirwatcher.go:180-198 | an explicitly loaded path stays loaded through every change, and loses its mark exactly if it is a matching file strictly below the changed path |
| WatcherConvergence.RemovalDropsExistingFileIff | dirwatcher.go:226-243 | removing a vanished path drops an existing file exactly when the path is unloaded and its immediate parent is a loaded file |
| WatcherConvergence.RemovalBelowFileLosesIt | dirwatcher.go:232-242 | a removal reported just below a loaded file makes the watcher lose that file |
| WatcherConvergence.ConvergesInAnyOrderIff | dirwatcher.go:127-132 | against a fixed tree, a batch that covers every vanished and every new file leaves exactly the existing files that were loaded or match, in whatever order it comes, if and only if each removal directly below such a file is of a loaded path, comes once, and has no removal directly below it |
| WatcherConvergence.BatchConverges | dirwatcher.go:127-132 | the same batch in the order given converges under that condition |
| WatcherConvergence.OrderIsIrrelevant | dirwatcher.go:127-132 | the resulting set of paths does not depend on the order of the operations |
| WatcherConvergence.BatchesConverge | dirwatcher.go:127-132 | over any sequence of such batches on changing trees the table is after each again fit for the next, and holds the files of its tree that match or have been loaded and there from the start |
| RpcTopics.FilterAdmitsRequests | rpc.go:326-328 | for an application without wildcard levels the filter admits exactly the topics built from a service, a method and a client |
| RpcTopics.RequestIsRouted | rpc.go:342-349 | for every application name, slashes and wildcards included, a request topic is admitted and yields its own service and method |
| RpcTopics.AdmittedIsLocatable | rpc.go:343-349 | for every application name, whatever the filter admits has the three levels that locating a method reads, so it never panics |
| RpcTopics.AnnouncementIsNoRequest | rpc.go:302-311 | the topic on which a method is announced is taken for a request exactly when a level of the application's name is `#` |
| RpcTopics.RepliesStayOutIff | rpc.go:526-528 | no reply to an admitted topic is itself admitted, exactly when no level of the application's name is `#` |
| RpcReplies.ErrorTable | rpc.go:368-462 | for each of the four errors the conditions on message and method under which it is given, both ways; in all other cases, and only there, the method runs |
| RpcReplies.IdDiscipline | rpc.go:368-443 | an error before the call carries a null id exactly for a parse error or an invalid request, with the exact exception, and everything else echoes the request's id |
| RpcReplies.SpoiledIdComesBack | rpc.go:385-389 | a concrete message in that exception |
| RpcReplies.SalvagedWhenFits | rpc.go:385 | an id is decoded unchanged exactly when all its numbers are in range |
| RpcReplies.GetIsLast | rpc.go:97-100 | of several members of one name the last one counts |
| RpcReplies.ResultXorError | rpc.go:464-513 | a reply is built exactly for outcomes that marshal and keep to their range of codes; it carries the id and either the method's own result or the error with its own code and text, and its kind exactly if it is a coded one |
| RpcReplies.EarlyErrorCodes | rpc.go:83-86 | the code on the wire for each thing that can be wrong with a request |
| RpcReplies.ReservedMeansInternal | rpc.go:473-512 | the code sent is the error's own, and reserved codes mark internal errors only |
| RpcReplies.OneReply | rpc.go:515-536 | a message makes the method run once exactly when all is in order, and gets exactly one unretained reply that tells its outcome, or none exactly when the outcome cannot be replied with; it panics exactly at a method error outside its range of codes |
| RpcReplies.EveryRequestAnsweredOnce | rpc.go:330-340 | over every run of admitted messages, whatever the methods return, the i-th reply answers the i-th message that has an outcome to reply with, under its id and with that outcome, up to the first panic; no reply is heard as a request, and the counters count the calls that were in order |
| RpcReplies.WellBehavedAnswersAll | rpc.go:330-340 | if methods always return something to reply with, every message is answered and the server stays up |
| RpcServerObject.MqttRpcServer.ValidateId | rpc.go:123-151 | exactly strings, integral numbers and null pass |
| RpcServerObject.MqttRpcServer.ParseRequest | rpc.go:368-429 | filling in id and error step by step gives the parse function's result |
| RpcServerObject.MqttRpcServer.LocateMethod | rpc.go:342-366 | the method found is the one registered under the topic's names, and a short topic panics |
| RpcServerObject.MqttRpcServer.ParseMessage | rpc.go:431-462 | an unknown method is reported under the request's id unless the request itself is at fault |
| RpcServerObject.MqttRpcServer.Call | rpc.go:179-193 | the method's counter goes up by one and stays in step with the calls made |
| RpcServerObject.MqttRpcServer.HandleMessage | rpc.go:515-536 | the new state and the panic are those of the message-handling function |

## Left out

- DriverSubscriptions.NoHandlerFails: does not model the assertion that the model is an
  `ExtendedModel` (driver.go:449), because which interfaces the model implements is fixed before the
  driver starts; it is an assumption here.
- Calls from the model back into the driver while one of its handlers runs, and errors that
  `model.Start` returns: every event is one step.
- `AddExternalDevice` is an answer carried by the message: a fresh device or an error, no callback.
- Interleaving with `Stop`: cleanup and shutdown are one step, although the code runs them outside
  the loop's goroutine. Quitting the loop, polling, timers and restarting are not modelled.
- Messages waiting in `handleMessageCh` while their filter or the readiness flag changes: a
  message is handled when it is delivered, and the barrier claim ends at the callback.
- Parsing and formatting of control maximums as floating point numbers; overflow of orders, which
  are unbounded integers here.
- Channel capacities, locks other than the one of `DeferredList`, and deadlock freedom.
- `WaitForReady` without waiting for retained messages, and its path after a failed sentinel
  subscription: both close `ready` at once. That the random sentinel topic is used by nobody else
  is assumed.
- Paho internals: tokens, acknowledgements and its own routing of callbacks. Messages published
  while disconnected are taken not to reach the broker.
- `$`-prefixed topics (section 4.7.2 of MQTT 3.1.1), which the matcher does not treat specially.
- A `DeferredList` without an executor, which the driver never makes.
- fsnotify watches, the reload delay, symbolic links, relative or unclean paths, and trees that
  change while one directory is being listed. The loader pattern is any predicate on file names;
  client errors are logged by the code and change nothing.
- JSON text: requests are decoded values, member names compare exactly, numbers are the float64
  they decode to. Decoding params and running a method are functions carried by the method, the
  latter of the number of its call.
- RPC registration by reflection, the announcements `Start` publishes (only their topics are
  covered), and registration while messages are handled.
- The content tracker, `Visit`, logging, the recorder, the fake model and the other test fixtures.
