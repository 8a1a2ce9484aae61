# The event-driven core of a shard-aware CQL driver, modelled and proved in Dafny

The driver talks to a cluster over many connections, all of them run by event loops. What makes it
hard is not any single handler but that handlers of several objects run in every possible order:
a response before the callback of the write that asked for it, a timer before a close, a cancel in
the middle of a handshake, a reconnect into a pool that is closing. This project models the objects
that live with these orders and proves what holds over every run of each of them. It also models
how nested collections and tuples are written to bytes and read back, and the buffers behind them.

`dafny verify dfyconfig.toml` checks everything.

## How it is built

For each component there are two modules.

* The *machine* is a state, the events the outside world can deliver, `Enabled` (what the event
  loop, the socket, the server or the object below is allowed to deliver in that state) and a total
  function `Step`. A run is a sequence of events. The invariant of the machine is a handful of small
  predicates; `StepKeeps` and `RunKeeps` carry it through every run, and the results are lemmas about
  all runs.
* The *object* is a class with the fields the driver has. Its methods update them in place, with the
  driver's loops and branches, and each is proved to perform exactly one operation of the machine:
  `State() == Operation(old(State()), ...)`. Fields that are history (what a listener was told, how
  often a callback ran) are marked as such.

| component | machine | object |
|---|---|---|
| one connection: streams, requests, responses | `Multiplexing` | `Connections.Connection` |
| pool of one host | `Pooling`, `Sharding` | `Pools.ConnectionPool` |
| opening a pool | `PoolStartup` | `PoolConnectors.ConnectionPoolConnector` |
| all pools | `PoolManagement` | `PoolManagers.ConnectionPoolManager` |
| opening a connection | `Handshake` | `Connectors.Connector` |
| connecting to a cluster | `ClusterStartup` | `ClusterConnectors.ClusterConnector` |
| keeping a control connection, hosts and policies | `ControlLoop`, `Topology` | `Clusters.Cluster`, `Clusters.ControlConnector` |
| nested values | `Encoding` over `Wire` | `Values.Collection`, `Values.TupleData`, `Values.AbstractData`, `ValueIterators` |
| buffers | `Buffers` | `BufferObjects.Buffer` |

`Sequences` holds the few list operations they share.

## What turned out not to hold

Where a property one would expect is false of the code, the code is modelled as it is, a concrete
run shows the failure, and a lemma says exactly when it occurs.

* A pool without shard-aware ports can stay short of connections for good although every reconnect
  succeeded (`Pooling.StarvationHappens`); a step does this exactly in the case of
  `Pooling.StarvesExactlyWhen`. With ports that decide the shard it cannot happen
  (`Pooling.MissingIsCovered`, `Pooling.SuccessesFill`).
* "UP exactly if the pool has connections" is lost exactly when a failed reconnect of an empty pool
  is made up for by connections from the marketplace, because that branch does not notify
  (`Pooling.LagsExactlyWhen`, with the run of `Pooling.LagHappens`); UP still implies connections.
* A cancel of a pool connector does not stop connectors that start after it. It stops the connectors
  exactly if the scout had returned when it came (`PoolStartup.CancelStopsExactlyWhen`, with the run of
  `PoolStartup.CanceledScoutStartsAll`); the client is still called back once.
* After close has started the total of what a manager waits for can grow, because hosts are still
  added (`PoolManagement.AddAfterCloseGrows`); `PoolManagement.ClosesAtLastChild` counts them in.
* An added host is not served when its old pool is still closing, and only then
  (`PoolManagement.AddServesExactlyWhen`, with the run of `PoolManagement.AddedHostIsLost`).
* A removed host is still served when its pool is only under way, and only then, because that pool is
  not stopped and opens later (`PoolManagement.RemoveServesExactlyWhen`, with the run of
  `PoolManagement.RemovedHostReturns`).
* While a manager is open its listener hears of a pool that cannot be opened twice
  (`PoolManagement.FailureIsHeardTwice`).
* The connector's callback could run twice if a request timer fired between a reply that ends the
  handshake and the write callback it overtook (`Handshake.TwiceHappens`, `Handshake.TwiceExactlyWhen`).
  Timers that fire in deadline order, as those of the event loop do, rule this out, because the
  connect timer has the same length and is started first (`Handshake.CallbackExactlyOnce`).
* A success can be reported on a connection that is already closing: exactly if the last reply had
  overtaken its write callback when the close began, because that callback or the close delivers it
  (`Handshake.SucceedsWhileClosingExactlyWhen`, with the run of `Handshake.SucceedsWhileClosingHappens`).
* A repeated contact point loses its earlier control connector from the map. A cancel reaches exactly
  the control connectors the map still has (`ClusterStartup.CancelReachesExactlyTheKnown`); right after
  the contact points were resolved these are all exactly if none is repeated
  (`ClusterStartup.CancelReachesAllExactlyWhen`). A win reaches those of them that are not at the
  winner's own address (`ClusterStartup.WinReachesExactlyTheKnown`), so with a repeated contact point
  somebody goes on untold while the client waits (`ClusterStartup.RepeatedIsNotStopped`,
  `ClusterStartup.SecondOfTwoIsNotStopped`). No run with a win does that exactly if no contact point is
  repeated (`ClusterStartup.WinStopsTheOthersExactlyWhen`).
* The search for a host to reconnect to recurses without end exactly if no delay is ever positive and
  the plan never has a host (`ControlLoop.SearchNeverEndsExactlyWhen`).
* Writing a nested value and reading it back is the identity exactly for values without a null
  directly inside a collection, without an odd map and without an unset field, of less than 2^31 bytes
  (`Encoding.RoundTripExactlyWhen`, with `Encoding.RoundTripFails`). What comes back for every other
  value that fits is `Encoding.Canon`.
* Reading does not compare a length with what is left. It runs beyond the input exactly if a length
  says more than that (`Encoding.OverrunsExactlyWhen`, `Encoding.OverrunHappens`); on what the driver
  wrote it never does, at any depth (`Encoding.EncodeThenRead`).
* The count of a map that was received is doubled in 32 bits. That changes what is read exactly if the
  double does not fit, unless there is no first key or the count is the lowest there is
  (`Encoding.DoublingShowsExactlyWhen`); what the driver wrote is never that large.
* What the type checks let a client build comes back as it was up to text and varchar, which they take
  as one type, and with the same type names exactly if every part has the very type its container
  declares (`Encoding.BuiltValuesComeBack`, `Encoding.TextComesBackAsVarchar`).
* Setting a field of a tuple stays inside the tuple or is refused exactly if the index is not the
  number of fields (`Values.SetStaysInsideExactlyWhen`, `Values.SetWritesOutside`).
* Sharing between buffers shows exactly when a write changes a block that another buffer holds
  (`Buffers.BehavesAsValuesExactlyWhen`, with the run of `Buffers.SharingShows`).
* The number 0x40 passes the driver's test for a valid protocol version and is skipped by the
  descent (`ClusterStartup.PreviousIsNextLower`).

## Model

| member | source | states |
|---|---|---|
| Multiplexing.TablesAgree | src/connection.cpp:123-304 | until the close, after every step and also while a callback runs and writes again: the stream table and the callbacks are inverse to each other, the in-flight counter is the number of live requests, acquired streams are those plus the writes still on their way to the socket, and the pending-read list is exactly the READING requests |
| Multiplexing.ExactlyOnce | src/connection.cpp:123-314 | in every run a request gets at most one terminal notification; an accepted one has it exactly if it is finished; once the connection has closed every accepted request has exactly one |
| Multiplexing.ResponsesReachTheirRequests | src/connection.cpp:230-304 | against a server that answers each request once on its stream, every delivered response answers the request it is delivered to whatever stream ids were reused, no response that was read is lost, and none makes the driver give up the connection |
| Multiplexing.CloseCompletes | src/connection.cpp:306-314 | from any closing state there is a run of one notification per outstanding request that reaches the closed state |
| Multiplexing.NotificationsFit | src/request_callback.cpp:101-124 | in every run a request is retried only if idempotent and timed out only if not, as the client said when writing it, both and write errors only when the connection goes down; an empty encoding is reported only for a request never accepted |
| Multiplexing.SaysExactly | src/connection.cpp:123-314 | at every event exactly what is due is said: an empty encoding and a failed write as such, a response once its request is written, a last word at the close, and nothing else |
| Multiplexing.GivesUpExactlyWhen | src/connection.cpp:230-304 | an open connection begins to close exactly when asked to or on bytes that are no message, a message on the event stream that is no event, one on a stream nobody waits on, or a second one where the first is still kept |
| Multiplexing.EventsReachTheListener | src/connection.cpp:256-264 | in every run the listener hears each event read while the connection is open, once and in order, and nothing else |
| Multiplexing.NeverGivesUp | src/connection.cpp:230-304 | a server that answers each request once on its stream and otherwise pushes only events never makes the driver close, and every event is heard |
| Multiplexing.StepKeeps | src/connection.cpp:123-314 | every event keeps the invariant that ties streams, phases, lists, counter and notifications together |
| Connections.Connection.BeginWrite | src/connection.cpp:123-131 | takes a stream and registers the callback, or reports that there is none and changes nothing |
| Connections.Connection.FinishWrite | src/connection.cpp:131-152 | settles what the socket did with the request: counted and WRITING, or its stream given back |
| Connections.Connection.OnWrite | src/connection.cpp:186-228 | the write callback is one step: WRITING goes to READING or to an error, READ_BEFORE_WRITE delivers the saved response |
| Connections.Connection.OnFrame | src/connection.cpp:241-302 | one decoded message is one step: delivered, saved, passed to the listener if it is an event on the event stream, or the connection given up |
| Connections.Connection.OnRead | src/connection.cpp:230-304 | the read loop with the calls its callbacks make is the run of these atomic steps in order, and it stops early only when the connection is closing |
| Connections.Connection.OnClose | src/connection.cpp:306-314 | the close loop is the run that drops every pending read in order and then closes |
| Connections.Connection.DropFront | src/request_callback.cpp:101-124 | a request still read for is retried if idempotent and failed otherwise, and finished |
| Pooling.NeverDead | src/connection_pool.cpp:64-123 | in every sharding mode and every run: no shard exceeds its quota, each connection is pooled once and under its own shard, the pending connectors are exactly the keys of the schedule map, and a pool that has not closed has a connection or a pending reconnect |
| Pooling.MissingIsCovered | src/connection_pool.cpp:187-206 | where reconnects reach the shard they aim at, an open pool always has as many reconnects under way to a shard as it lacks connections there; with none pending it is full |
| Pooling.ConnectedCovers | src/connection_pool.cpp:332-382 | in that mode a successful reconnect keeps the coverage, uses up exactly one pending connector and never takes the branch that reschedules |
| Pooling.SuccessesFill | src/connection_pool.cpp:332-382 | in that mode any run in which every pending reconnect succeeds ends with every shard exactly full and nothing pending |
| Pooling.ListenerTrace | src/connection_pool.cpp:217-232 | the listener of any run sees UP and DOWN alternate, at most one critical error with nothing but the close after it, one close exactly if the pool has closed and never straight after UP; UP implies a connection while open |
| Pooling.ClosesAtLastChild | src/connection_pool.cpp:264-305 | once not open, the number of children falls by one per callback and never grows, and the pool closes at exactly the callback that leaves none |
| Pooling.CloseStarts | src/connection_pool.cpp:264-290 | a close request leaves the pool closed at once or waiting, whichever connectors call back from within |
| Pooling.MembershipChanges | src/connection_pool.cpp:332-382 | the pool gains exactly what reconnects and the marketplace bring, loses exactly what closes, and passes on what it has no room for |
| Pooling.SchedulesAreOwned | src/connection_pool.cpp:234-262 | in every run no two connectors share a reconnection schedule and none is given out twice |
| Pooling.RetryContinues | src/connection_pool.cpp:373-380 | a failed reconnect is tried again with its own schedule and aim, nobody else's changes, unless the marketplace filled the pool |
| Pooling.SurplusContinues | src/connection_pool.cpp:351-366 | a success on a full shard gives its connection to the marketplace and is tried again, with its schedule and aim, exactly if that leaves the pool short with nothing else under way |
| Pooling.LossIsMadeUpFor | src/connection_pool.cpp:187-206 | a lost connection is made up for by one reconnect with a new schedule, aimed at its shard where ports decide shards |
| Pooling.SaysExactly | src/connection_pool.cpp:155-305 | at every event exactly what is due is said: UP and DOWN when they are news, a critical error before the close, a DOWN and the close at the end, a request for a flush if none is pending, each flush in order |
| Pooling.CriticalEndsThePool | src/connection_pool.cpp:367-372 | a critical outcome in an open pool is told once and leaves it not open |
| Pooling.StarvesExactlyWhen | src/connection_pool.cpp:351-366 | an open pool is left short with nothing pending exactly when its only reconnect succeeds on a shard with room while another slot is missing |
| Pooling.StarvationHappens | src/connection_pool.cpp:351-366 | such a run exists with three shards and no shard-aware port |
| Pooling.LagsExactlyWhen | src/connection_pool.cpp:367-382 | while open, UP-exactly-if-connected is lost by a step exactly if it is a failed reconnect of a pool without connections for which the marketplace has some |
| Pooling.LagHappens | src/connection_pool.cpp:373-380 | a pool of one slot, opened without a connection, whose failed reconnect finds one in the marketplace: it has a connection and has told its listener DOWN |
| Pooling.FlushKeeps | src/connection_pool.cpp:155-162 | a pooled connection that asked for a flush since its last one is in the flush set, and only pooled ones are |
| Pooling.OpenedKeeps | src/connection_pool.cpp:64-123 | a newly constructed pool satisfies the invariant and, where reconnects are aimed, covers every missing slot |
| Pooling.AdmitAccounts | src/connection_pool.cpp:94-104 | every connection given to the constructor is pooled or passed on to the marketplace, the latter only where its shard is full |
| Pooling.StepKeeps | src/connection_pool.cpp:125-382 | every event keeps the pool's invariant |
| Pools.ConnectionPool.constructor | src/connection_pool.cpp:64-123 | builds exactly the opened pool of the machine from the connections that are not closing: admitted, grabbed, notified, every missing slot scheduled; its quota times its shards is the least multiple of the shards not below the configured number, a host without sharding information has one shard and no ports that decide |
| Pools.ConnectionPool.CloseConnection | src/connection_pool.cpp:187-206 | removing a connection is one step: notify and schedule while open, try to finish closing otherwise |
| Pools.ConnectionPool.NotifyUpOrDown | src/connection_pool.cpp:217-225 | UP or DOWN is told exactly on a change |
| Pools.ConnectionPool.NotifyCriticalError | src/connection_pool.cpp:227-232 | a critical error is told once |
| Pools.ConnectionPool.ScheduleReconnect | src/connection_pool.cpp:234-262 | a new connector takes over the given schedule or draws one, and aims at a shard only where ports allow it |
| Pools.ConnectionPool.InternalClose | src/connection_pool.cpp:264-290 | every pooled connection is told to close; the loops over copies of connections and connectors are one step, whatever calls back from within |
| Pools.ConnectionPool.MaybeClosed | src/connection_pool.cpp:292-305 | closes exactly when waiting with nothing left, with a last DOWN if it was UP |
| Pools.ConnectionPool.GrabAll | src/connection_pool.cpp:307-330 | the marketplace fills each shard with what it hands out for it |
| Pools.ConnectionPool.OnReconnect | src/connection_pool.cpp:332-382 | the outcome of a delayed connector is one step in each of its cases |
| Pools.ConnectionPool.RequiresFlush | src/connection_pool.cpp:180-185 | the manager is told exactly when the set was empty |
| Pools.ConnectionPool.Flush | src/connection_pool.cpp:155-162 | every connection in the set is flushed and the set emptied |
| Pools.ConnectionPool.FindLeastBusy | src/connection_pool.cpp:125-148 | for every token, the placeholder included: the shard is the token plus 2^63, shifted left by the ignored bits modulo 2^64, times the number of shards, over 2^64; the result is an open connection with the fewest requests on that shard if it has one, otherwise in the pool, and nothing exactly if all are closing |
| Pools.ConnectionPool.MinElement | src/connection_pool.cpp:143-148 | an element that no other precedes |
| Pools.ConnectionPool.LeastBusyOverall | src/connection_pool.cpp:126-138 | the nested loops find an open connection with the fewest requests in the pool, or nothing exactly if all are closing |
| Pools.LessBusyIsStrictWeakOrder | src/connection_pool.cpp:30-39 | the comparator is a strict weak order |
| Sharding.ShardOfIsScaledToken | src/sharding_info.cpp:44-53 | the two 32-bit multiplications compute the biased token scaled to the number of shards, so the result is always a shard |
| Sharding.BiasedDropsTheTop | src/sharding_info.cpp:44-46 | for up to 64 ignored bits the shift drops exactly these bits at the top of the biased token |
| Sharding.BiasedIsShifted | src/sharding_info.cpp:44-46 | the biased token is the token plus 2^63 shifted left, modulo 2^64 |
| Sharding.SplitFitsIn64Bits | src/sharding_info.cpp:44-53 | neither 64-bit product nor their sum overflows, for any token and any positive signed 32-bit number of shards |
| Sharding.ShardsAreTokenRanges | src/sharding_info.cpp:44-53 | with no bits ignored every shard owns one contiguous range of tokens |
| Sharding.CapacityIsLeastMultiple | src/connection_pool.cpp:83-92 | quota times shards is the least multiple of the shard count not below the configured number |
| Sharding.AssignedCount | src/connection_pool_connector.cpp:127-130 | how many of the first connectors are sent to a shard; never more than its quota |
| Sharding.InitialAssignmentFits | src/connection_pool.cpp:94-104 | whichever connectors succeeded and in whatever order, connections on the shard their connector was sent to are all kept, each under its shard, none surplus |
| PoolStartup.CallsBackOnce | src/connection_pool_connector.cpp:65-192 | from the scout on, wherever cancels come: the client is called back exactly once, when the scout and the last connector have returned |
| PoolStartup.ResultExact | src/connection_pool_connector.cpp:163-185 | a pool is made, from exactly the connections obtained and in their order, unless a cancel came before the last callback, during the scout too, or a critical error occurred, and then the first such error is the one reported; a pool not taken is closed |
| PoolStartup.StopsTheOthersExactlyWhen | src/connection_pool_connector.cpp:76-91 | while connectors run, all have been told to stop exactly if a critical error occurred or a cancel came after they were started, and otherwise none has |
| PoolStartup.CancelStopsExactlyWhen | src/connection_pool_connector.cpp:76-91 | one cancel and no critical error: the connectors still running afterwards were told to stop exactly if the scout had returned when the cancel came |
| PoolStartup.CancelClosesExactly | src/connection_pool_connector.cpp:76-91 | in every run exactly the connections obtained when a cancel came have been told to close, unless a pool that was not taken was held by then |
| PoolStartup.CanceledScoutStartsAll | src/connection_pool_connector.cpp:119-138 | a cancel during the scout, then the scout's return: all connectors run and none was told |
| PoolStartup.StartsWithoutSurplus | src/connection_pool_connector.cpp:119-138 | with shard-aware ports the pool made at the end of any run keeps every connection obtained |
| PoolStartup.StepKeeps | src/connection_pool_connector.cpp:65-192 | the countdown is the number of connectors still running, and no two connections come from the same one |
| PoolConnectors.ConnectionPoolConnector.Connect | src/connection_pool_connector.cpp:119-138 | starts one connector per configured connection, aimed round robin where ports allow it |
| PoolConnectors.ConnectionPoolConnector.OnScoutConnect | src/connection_pool_connector.cpp:188-192 | the scout's return starts the connectors, canceled or not |
| PoolConnectors.ConnectionPoolConnector.OnConnect | src/connection_pool_connector.cpp:140-186 | a connector's callback is one step |
| PoolConnectors.ConnectionPoolConnector.Cancel | src/connection_pool_connector.cpp:76-91 | every connector still running is told to cancel and every connection obtained so far to close, unless a pool that was not taken is held, which is closed already |
| PoolManagement.NoFlushIsLost | src/connection_pool_manager.cpp:180-185 | in every run a pooled connection that asked for a flush is in its pool's set, its pool in the manager's, and the top listener has been signalled since the last flush |
| PoolManagement.FlushSettlesEverything | src/connection_pool_manager.cpp:80-86 | the next manager flush leaves no pooled connection with an unanswered request, empties the set and starts a new round of signals |
| PoolManagement.ClosesAtLastChild | src/connection_pool_manager.cpp:127-149 | after close started, with hosts added or not: the total over both levels falls by one per callback and rises by one per unknown host added, and the manager closes and says so once, at exactly the callback that leaves none |
| PoolManagement.AddAfterCloseGrows | src/connection_pool_manager.cpp:98-117 | a run in which the total grows after the close |
| PoolManagement.AddServesExactlyWhen | src/connection_pool_manager.cpp:98-117 | after an add the host has an open pool or one under way exactly unless its pool is still closing |
| PoolManagement.AddedStaysServed | src/connection_pool_manager.cpp:98-216 | a host that is served stays so over any run without its removal, a close or a critical error of its own |
| PoolManagement.AddedHostIsLost | src/connection_pool_manager.cpp:119-125 | a run of removal, add and last close that leaves an open manager without the host |
| PoolManagement.RemoveServesExactlyWhen | src/connection_pool_manager.cpp:119-125 | after a removal the host has an open pool or one under way exactly if it had none yet but one was under way |
| PoolManagement.UnservedUntilAdded | src/connection_pool_manager.cpp:98-216 | a host that is not served stays so over any run in which it is not added |
| PoolManagement.RemovedHostReturns | src/connection_pool_manager.cpp:119-125 | a run of add, removal and the opening of the pool, after which the host is served |
| PoolManagement.FailureIsHeardTwice | src/connection_pool_manager.cpp:174-224 | how often the listener hears of a pool that cannot be opened: twice while open, at most once after |
| PoolManagement.NeverStuck | src/connection_pool_manager.cpp:187-216 | a waiting manager always has a callback it waits for |
| PoolManagement.StepKeeps | src/connection_pool_manager.cpp:80-216 | every event of the manager and of any of its pools keeps the invariant of both levels |
| PoolManagers.ConnectionPoolManager.Add | src/connection_pool_manager.cpp:98-117 | a pool connector is started unless the host has a pool or one is under way |
| PoolManagers.ConnectionPoolManager.Flush | src/connection_pool_manager.cpp:80-86 | every pool in the set is flushed, no other is touched, the set is emptied |
| PoolManagers.ConnectionPoolManager.ClosePools | src/connection_pool_manager.cpp:134-138 | the loop over a copy of the pools closes each; those with nothing left are gone when it ends, although they removed themselves meanwhile |
| PoolManagers.ConnectionPoolManager.Close | src/connection_pool_manager.cpp:127-149 | closing is one step whatever reports back from within |
| PoolManagers.ConnectionPoolManager.OnRequiresFlush | src/connection_pool_manager.cpp:180-185 | the listener is signalled exactly when the set was empty |
| PoolManagers.ConnectionPoolManager.OnClose | src/connection_pool_manager.cpp:187-191 | a closed pool leaves the table and the flush set |
| PoolManagers.ConnectionPoolManager.MaybeClosed | src/connection_pool_manager.cpp:200-207 | closes exactly when waiting with nothing left |
| PoolManagers.ConnectionPoolManager.OnConnect | src/connection_pool_manager.cpp:209-224 | a pool connector's callback: its pool is taken over or its failure passed on while open, and may be the last thing waited for otherwise |
| PoolManagers.ConnectionPoolManager.OnPoolFailed | src/connection_pool_connector.cpp:164-176 | a failed pool connector tells the manager as its listener, unless canceled, and then calls back: one step |
| Handshake.CallbackExactlyOnce | src/connector.cpp:240-277 | for every interleaving of socket result, responses, write callbacks, timers, cancel and close the callback runs at most once, and has run once the attempt or connection has ended; before that the only errors are cancel and timeout, and the connector still hears from the socket attempt or the connection, which it has then told to end; after it a connection the client did not take is closing |
| Handshake.OrderedTimersNeverTooLate | src/connector.cpp:219-238 | timers in deadline order never let a request timer act |
| Handshake.TwiceExactlyWhen | src/connector.cpp:125-138 | without that order, the one situation from which a second callback can follow |
| Handshake.TwiceHappens | src/connector.cpp:125-138 | such a run |
| Handshake.SuccessMeansFullHandshake | src/connector.cpp:279-360 | against a compliant server a success means OPTIONS, STARTUP, AUTH_RESPONSEs, REGISTER exactly once if and only if events were asked for, USE if and only if a keyspace was, in this order |
| Handshake.RepliesAreAnswered | src/connector.cpp:69-151 | whatever reply an unfinished connector without an error is handed on an open connection: the client hears of the error it means, a rejected token included, exactly if it means one; otherwise exactly the request that is due goes out, or the success is reported if none is |
| Handshake.FriendlyRunsSucceed | src/connector.cpp:279-360 | against a server that follows the protocol and accepts every token, without errors, timers, cancel or close, with any number of challenges and any order of replies and write callbacks: no callback but success, success exactly when nothing is left to happen, and after at most eleven events and two per challenge |
| Handshake.WaitingOutcome | src/connection.cpp:186-228 | a request whose reply is not handed over: known to be written, its reply kept, dropped without a word, or a failed write reported as an error |
| Handshake.CallbackHandsOver | src/connector.cpp:252-265 | with the callback the connection goes to the client as it is if taken, and is closed otherwise and after every error |
| Handshake.SucceedsExactlyWhen | src/connector.cpp:69-151 | an event reports success exactly if the connector has no error and the event hands over the reply that ends the handshake: one just read, or one kept for its write callback or for the close |
| Handshake.SucceedsWhileClosingExactlyWhen | src/request_callback.cpp:101-124 | it does so although the connection is already closing exactly if that reply had overtaken its write callback |
| Handshake.SucceedsWhileClosingHappens | src/connection.cpp:306-311 | such a run, with timers in deadline order: READY overtakes the write callback of STARTUP, the socket closes, and the dropped request delivers it |
| Handshake.StepKeeps | src/connector.cpp:219-412 | every event keeps the connector's invariant, except the one of `TwiceExactlyWhen` |
| Connectors.Connector.OnConnect | src/connector.cpp:370-402 | keeps the connector's invariant; a connected socket makes it the listener and sends OPTIONS without calling back, anything else calls the client back exactly once, with the cancel, the timeout or the socket's error |
| Connectors.Connector.OnRead | src/connector.cpp:69-151 | keeps the invariant; answers the reply as in `RepliesAreAnswered`; a callback without an error comes only as a success, on a connection that is not closing and awaits nothing; against a compliant server what was sent stays in handshake order and a success has all of it |
| Connectors.Connector.OnWrite | src/connection.cpp:186-228 | keeps the invariant and the handshake order; delivers a reply that overtook the write and answers it in the same way; the success it delivers comes on a connection that is already closing exactly if the close began before and the reply kept is the last one |
| Connectors.Connector.OnRequestClose | src/request_callback.cpp:101-124 | keeps the invariant and the handshake order; reports a success exactly if the reply kept is the last one and there is no error, and then always on a connection that is closing |
| Connectors.Connector.OnTimeout | src/connector.cpp:404-412 | keeps the invariant, calls nobody back, turns the timer off, and has told the socket attempt or the connection to end |
| Connectors.Connector.Cancel | src/connector.cpp:240-244 | keeps the invariant, calls nobody back, and has told the socket attempt or the connection to end |
| Connectors.Connector.OnClose | src/connector.cpp:362-368 | keeps the invariant; after it the client has been called back exactly once, with the cancel or timeout if there was one and otherwise with the loss of the connection |
| Connectors.Connector.OnRequestTimeout | src/connector.cpp:136-138 | keeps the invariant; ends a connector that has no error yet and does nothing otherwise, in particular nothing when timers fire in deadline order |
| ClusterStartup.CallsBackOnce | src/cluster_connector.cpp:136-186 | for any order of finishes and any point of cancel the client is called back once, when nothing is left to wait for; unless canceled it sees success exactly if a cluster was created; canceled only if a cancel came |
| ClusterStartup.ReportsTheWinner | src/cluster_connector.cpp:236-276 | from the events alone: the client gets a cluster exactly if a control connector connects, with its host reported and in the plan, before any cancel, and is told the protocol version of the first that does, whatever was tried before |
| ClusterStartup.StopsTheOthers | src/cluster_connector.cpp:266-276 | in every run: before one has won or the client canceled no control connector has been told to cancel; afterwards, if the contact points are distinct, every one still running has; the next rows say whom a win or a cancel reaches if they are not |
| ClusterStartup.WinReachesExactlyTheKnown | src/cluster_connector.cpp:266-276 | after any run a win leaves all others told exactly if each is the one the map has for its address and none is at the winner's |
| ClusterStartup.WinStopsTheOthersExactlyWhen | src/cluster_connector.cpp:164-276 | no run after the resolution in which one has won leaves a control connector untold, exactly if no contact point is repeated |
| ClusterStartup.RepeatedIsNotStopped | src/cluster_connector.cpp:266-276 | for every list of contact points with a repeated one: the run in which one of the two wins, another goes on untold and the client still waits |
| ClusterStartup.SecondOfTwoIsNotStopped | src/cluster_metadata_resolver.cpp:36-76 | the smallest such run: one contact point given twice |
| ClusterStartup.CancelReachesAllExactlyWhen | src/cluster_connector.cpp:117-134 | a cancel that follows the resolution reaches every control connector exactly if no contact point is repeated |
| ClusterStartup.CancelReachesExactlyTheKnown | src/cluster_connector.cpp:127-134 | after any run a cancel leaves all running control connectors told exactly if each was told before or is the one the map has for its address |
| ClusterStartup.CanceledClusterIsClosed | src/cluster_connector.cpp:127-134 | in every run the resolver was told to cancel exactly if the cancel came before the callback, and the cluster to close exactly if there was one besides |
| ClusterStartup.LateCancelReachesNobody | src/cluster_connector.cpp:127-155 | a cancel after the callback reaches no control connector, resolver or cluster |
| ClusterStartup.ReportsTheLastError | src/cluster_connector.cpp:157-162 | without a cancel, a client that gets no cluster is told the error that came last |
| ClusterStartup.CallbackUsesBudget | src/cluster_connector.cpp:188-302 | each callback uses up budget; a retry lowers one host's version strictly and leaves its count |
| ClusterStartup.DescentTerminates | src/cluster_connector.cpp:164-302 | at most one callback per contact point and protocol version in any run |
| ClusterStartup.PreviousIsNextLower | src/protocol.cpp:53-84 | lowering a version is strict and skips no valid version but 0x40 |
| ClusterStartup.ValidExactly | src/protocol.cpp:53-84 | which numbers pass as valid versions, and the order of the descent |
| ClusterStartup.StepKeeps | src/cluster_connector.cpp:127-302 | the countdown is the number of running control connectors, and what is reported fits what was created |
| ClusterConnectors.ClusterConnector.OnResolve | src/cluster_connector.cpp:164-186 | starts every contact point, or finishes if canceled or there are none |
| ClusterConnectors.ClusterConnector.OnConnect | src/cluster_connector.cpp:188-302 | a control connector's callback is one step in each of its cases, with the results of `ReportsTheWinner` and `ReportsTheLastError` |
| ClusterConnectors.ClusterConnector.Cancel | src/cluster_connector.cpp:127-134 | the resolver, every control connector in the map and a cluster already created are told |
| ClusterConnectors.ClusterConnector.CancelOthers | src/cluster_connector.cpp:268-274 | the loop tells everyone in the map but the winner |
| ClusterConnectors.ClusterConnector.InternalConnect | src/cluster_connector.cpp:117-125 | starts a control connector for an address and a version |
| ClusterConnectors.ClusterConnector.MaybeFinish | src/cluster_connector.cpp:151-155 | finishes at the last countdown and at no other |
| ControlLoop.AlwaysOnePhase | src/cluster.cpp:402-493 | in every reachable state exactly one of: live control connection, running timer, active connector, closed; and every policy that followed its notices knows the same host objects as the cluster |
| ControlLoop.ClosesExactlyOnce | src/cluster.cpp:471-493 | after the first close request and any others, the cluster closes exactly if the timer was running or what was going on has ended since, telling its listener once, last |
| ControlLoop.NeverClosesUnasked | src/cluster.cpp:777-784 | without a close request it never closes |
| ControlLoop.ReconnectUpdates | src/cluster.cpp:433-469 | after a successful reconnect the control connection is to the host of the connector, the addresses are those reported, survivors keep their objects, the connected host is found, each policy heard once of each difference, the listener of the success, and the schedule starts afresh |
| ControlLoop.SearchNeverEndsExactlyWhen | src/cluster.cpp:402-431 | for every schedule and plan, which go on for ever: the recursion never ends exactly if no delay is positive and no host comes |
| ControlLoop.SearchEndsAtFirstUseful | src/cluster.cpp:402-431 | a search ends at the first poll with a delay or a host: with a timer exactly if it has a delay, otherwise with a connector to that host, one delay drawn per poll |
| ControlLoop.TimerGoesToTheHost | src/cluster.cpp:415-431 | when the timer fires the host of the plan is connected to, and without one the search goes on |
| ControlLoop.LossStartsTheSearch | src/cluster.cpp:457-469 | a lost connection and a failed connector start such a search, with the same ends |
| ControlLoop.HostEventsArrive | src/cluster.cpp:590-659 | a host added is in the table as that object, one removed is not |
| ControlLoop.StepKeeps | src/cluster.cpp:402-493 | every event keeps the phase, passes a close request to whatever is going on, and draws delays afresh after each success |
| Topology.UpdateHostsExact | src/cluster.cpp:308-326 | the table after an update, and exactly one notice per newcomer and per leaver to every policy |
| Topology.UpdateHostsKeeps | src/cluster.cpp:308-326 | an update keeps every policy's picture equal to the table |
| Topology.HostAddKeeps | src/cluster.cpp:590-619 | an add, of a known address too, keeps every policy's picture equal to the table |
| Topology.HostAddExact | src/cluster.cpp:590-619 | the table has the new object at its address, and every policy heard of its removal and then of the add |
| Topology.HostRemoveKeeps | src/cluster.cpp:630-659 | so does a removal, of an unknown address too |
| Topology.HostRemoveExact | src/cluster.cpp:630-659 | the address is gone and every policy heard of the object that was there |
| Topology.ReportHasConnected | src/control_connector.cpp:205-231 | a report is keyed by its hosts' addresses and always has the host connected to |
| Topology.ReportedIsLast | src/control_connector.cpp:205-231 | the host reported at an address is that of the last row that gives it, and otherwise the one connected to |
| Topology.ListeningIsLast | src/control_connector.cpp:217-231 | the listen address kept for a client address is that of the last usable row that gives it |
| Clusters.ControlConnector.HandleQueryHosts | src/control_connector.cpp:205-231 | fails exactly without a local row; otherwise the row loop builds the report and the table of listen addresses |
| Clusters.Cluster.UpdateHosts | src/cluster.cpp:308-326 | the two loops perform the update of the machine |
| Clusters.Cluster.NotifyHostAdd | src/cluster.cpp:590-619 | the table and the notices to the policies after an add |
| Clusters.Cluster.NotifyHostRemove | src/cluster.cpp:630-659 | the table and the notices to the policies after a removal |
| Clusters.Cluster.ScheduleReconnect | src/cluster.cpp:402-413 | with the recursion of the next row, for any polls: a timer, a connector, or a search still going on |
| Clusters.Cluster.HandleScheduleReconnect | src/cluster.cpp:417-431 | the next host of the plan, or a new plan and another wait |
| Clusters.Cluster.OnScheduleReconnect | src/cluster.cpp:415-431 | the timer's callback is one step |
| Clusters.Cluster.OnReconnect | src/cluster.cpp:433-469 | the connector's callback is one step, and the assertion that the connected host is found cannot fail |
| Clusters.Cluster.OnClose | src/cluster.cpp:777-784 | losing the connection is one step |
| Clusters.Cluster.InternalClose | src/cluster.cpp:471-482 | a close request is one step |
| Encoding.EncodeThenRead | src/collection_iterator.cpp:21-47 | for every value of every type that fits: writing it and iterating at every level consumes exactly what was written, never runs beyond it, and yields its canonical form |
| Encoding.CanonIsIdentity | src/collection.cpp:107-129 | the canonical form is the value itself exactly if no collection holds a null, no map is odd, no field unset, at any depth |
| Encoding.RoundTripExactlyWhen | src/collection.cpp:131-167 | for every value of every type: reading back uses up what was written and gives the value itself exactly if it is clean and of less than 2^31 bytes |
| Encoding.RoundTripFails | src/collection.cpp:107-111 | a null list ends the iteration of its list; an odd map loses its last key |
| Encoding.WireFormat | src/collection.cpp:131-167 | the bytes themselves: -1 for a null field, otherwise the length first; a collection begins with the number of its items, a map of its pairs, most significant byte first |
| Encoding.ItemsOnTheWire | src/collection.cpp:140-147 | each item is its length and its bytes, without gaps |
| Encoding.PairsAreKeyAndValue | src/collection_iterator.cpp:29-39 | in a map keys are at even and values at odd positions, each checked and read with its own type |
| Encoding.OverrunsExactlyWhen | src/decoder.cpp:141-168 | one value is read beyond the end exactly if its length says more than is left |
| Encoding.OverrunHappens | src/decoder.cpp:150-154 | bytes on which iterating runs beyond the end |
| Encoding.DoublingShowsExactlyWhen | src/collection_iterator.hpp:41-47 | for every received map: doubling its count in 32 bits changes the items read exactly if the double does not fit, a first key is there, and the count is not the lowest |
| Encoding.ChecksSuffice | src/collection.hpp:99-120 | the checks made while a value is built, keys at even and values at odd positions, suffice to read it back with its declared type, up to text and varchar |
| Encoding.EqualsIsEquality | src/data_type.hpp:92-289 | on fully declared types the comparison, which takes text and varchar as one type and compares sub-types and class names only where both sides have them, is equality up to text and varchar |
| Encoding.LeftOutIsEqual | src/data_type.hpp:92-289 | where one side leaves out its class name or its sub-types the comparison lets the other have any, and never another kind |
| Encoding.BuiltValuesComeBack | src/abstract_data.cpp:54-109 | what the driver lets a client build, if clean, comes back as it was up to text and varchar, and with the same type names exactly if every part has the very type its container declares |
| Encoding.TextComesBackAsVarchar | src/data_type.hpp:92-102 | a text list put where a varchar list is declared comes back as a varchar list |
| Values.Collection.Check | src/collection.hpp:99-120 | the type the value is checked against by its position |
| Values.Collection.AppendNull | src/collection.cpp:107-111 | a null is appended as an empty buffer |
| Values.Collection.AppendScalar | src/collection.hpp:57-62 | appended exactly if no type is declared at its position or one that this kind of scalar goes with, a custom value with the class name it has, and then as that type |
| Values.Collection.AppendCollection | src/collection.cpp:113-117 | the items of the other collection as they are now, which may be the same object |
| Values.Collection.AppendTuple | src/collection.cpp:119-123 | the fields of the tuple as they are now |
| Values.Collection.GetItemsSize | src/collection.cpp:131-138 | the loop computes the length of the encoded items |
| Values.Collection.EncodeItems | src/collection.cpp:140-147 | the loop fills the rest of the buffer exactly with the encoded items |
| Values.Collection.Encode | src/collection.cpp:153-158 | a buffer of the precomputed size with the bytes of the collection |
| Values.Collection.EncodeWithLength | src/collection.cpp:160-167 | the same with its length in front |
| Values.TupleData.SetCollection | src/tuple.cpp:110-114 | for every index: set exactly if below the number of fields and of the declared type, outside the tuple exactly at that number, refused otherwise |
| Values.TupleData.SetNull | src/tuple.cpp:98-102 | the same for a null |
| Values.TupleData.SetScalar | src/tuple.hpp:53-58 | the same for a scalar and the types it goes with |
| Values.TupleData.SetTuple | src/tuple.cpp:104-108 | the same for a tuple, possibly this one |
| Values.SetStaysInsideExactlyWhen | src/tuple.hpp:87-99 | a field is set inside the tuple or the call refused exactly if the index is not the number of fields |
| Values.SetWritesOutside | src/tuple.hpp:87-99 | the index that passes the check of a tuple of any size although it has no such field |
| Values.TupleData.GetBuffersSize | src/tuple.cpp:138-148 | the length of the encoded fields, four bytes for one nobody set |
| Values.TupleData.EncodeBuffers | src/tuple.cpp:150-158 | the loop fills the rest of the buffer exactly |
| Values.TupleData.Encode | src/tuple.cpp:122-126 | a buffer of the precomputed size with the bytes of the tuple |
| Values.TupleData.EncodeWithLength | src/tuple.cpp:128-136 | the same with its length in front |
| Values.AbstractData.SetCollection | src/abstract_data.cpp:33-40 | accepted exactly if index and type fit and a map has a value for each key; kept by reference |
| Values.AbstractData.GetBuffersSize | src/abstract_data.cpp:70-80 | the length of the encoded elements, whatever the collections hold by now |
| Values.AbstractData.CopyBuffer | src/abstract_data.cpp:101-109 | writes one element and returns the position behind it |
| Values.AbstractData.EncodeBuffers | src/abstract_data.cpp:82-90 | the loop fills the rest of the buffer exactly |
| Values.AbstractData.Encode | src/abstract_data.cpp:54-58 | a buffer of the precomputed size with the bytes of all elements |
| Values.AbstractData.EncodeWithLength | src/abstract_data.cpp:60-68 | the same with its length in front |
| ValueIterators.CollectionIterator.DecodeValue | src/collection_iterator.cpp:29-39 | keys of a map are read with the first type, values with the second; an overrun is marked |
| ValueIterators.CollectionIterator.Next | src/collection_iterator.cpp:21-27 | stops exactly if nothing is left; otherwise the value is the first of what was left, with its type |
| ValueIterators.TupleIterator.Next | src/collection_iterator.cpp:41-47 | the same over the fields of a tuple |
| ValueIterators.ReadAll | src/value.cpp:240-250 | iterating at every level until the iterators stop yields the value the bytes stand for, a map with as many items as its count doubled in 32 bits, and reports an overrun exactly if there is one at some level |
| Wire.Int32RoundTrip | src/serialization.hpp:102-116 | reading back a written integer gives it modulo 2^32 |
| Wire.BytesAreBigEndian | src/serialization.hpp:102-116 | an integer is its lowest 32 bits with the most significant byte first, and four bytes are read as the signed number with these bits |
| Wire.EncodeInt32 | src/buffer.hpp:94-98 | writes the four bytes, each the one of its place value, and nothing else |
| Wire.Copy | src/buffer.hpp:165-169 | writes the given bytes and nothing else |
| Buffers.CountsAlwaysMatch | src/buffer.hpp:30-68 | after any sequence of constructing, copying, assigning, writing and destroying, each block's count is the number of live buffers over sixteen bytes that point to it, none dangles, none is left behind |
| Buffers.BehavesAsValuesExactlyWhen | src/buffer.hpp:190-205 | for every sequence of operations: the buffers hold throughout what independent byte strings would exactly if no write changed a block that another buffer held |
| Buffers.StepHoldsExactlyWhen | src/buffer.hpp:165-169 | an operation leaves the buffers holding what independent byte strings would exactly if it is no write, or its block has one holder, or the write leaves the block as it was |
| Buffers.SharingShows | src/buffer.hpp:165-169 | a buffer of seventeen bytes, copied and then written: the copy changes too |
| Buffers.SixteenBytesAreOwn | src/buffer.hpp:33-51 | a buffer gets a block exactly if it is made of more than sixteen bytes, and a write to one without shows in no other |
| Buffers.OverwriteExact | src/buffer.hpp:165-169 | a write puts the bytes at their place and leaves the others and the length alone |
| Buffers.StepKeeps | src/buffer.hpp:30-205 | every operation keeps the counts exact, self-assignment included |
| BufferObjects.Buffer.constructor | src/buffer.hpp:33-51 | a new buffer holds the bytes and is the only holder of its block |
| BufferObjects.Buffer.Copy | src/buffer.hpp:190-205 | the buffer takes over the contents, of itself too; every other buffer keeps its own; counts stay exact and a block is freed exactly if nobody holds it |
| BufferObjects.Buffer.Destroy | src/buffer.hpp:64-68 | the others keep their contents, counts stay exact |

## Left out

- Sockets, TLS, name resolution, timers and the event loop: they are the events of the machines; what they may deliver when is written out in each `Enabled`.
- Request callbacks: they are names with a phase; a request that reports its own error while it is encoded for an unsupported protocol version is not modelled.
- Stream numbers: which free stream the stream manager picks is a choice of the environment, as long as it is free and in range.
- Heartbeats, metrics, logging, keyspace tracking on a connection: no influence on the bookkeeping.
- Listeners that call back into the pool that is notifying them: a notification of the pool is an entry of its log.
- PoolManagers.ConnectionPoolManager.ClosePools: the pools of the manager object are values of the pool machine, so a pool object shared with somebody else is not modelled.
- UP, DOWN and critical errors of open pools: the manager passes them on to its listener unchanged.
- What a scout finds out beyond the sharding of its host, and who owns the connections that a canceled or critically failed pool connector goes on to obtain.
- A reply that answers no AUTH_RESPONSE with AUTH_CHALLENGE or AUTH_SUCCESS: the source reads the request as one, so the environment does not send it.
- Clusters.Cluster.NotifyHostAdd: the events to the cluster's listener (after preparing statements), ignored hosts and the token map; only the host table and the policies.
- Clusters.Cluster.NotifyHostRemove: the same for a removal.
- Alternation of the cluster's UP and DOWN events and the replay of recorded events: an asynchronous step in between can reorder them.
- What is read after an overrun: it is not part of the input, so the model has no value for it.
- What is stored after a write outside a tuple: the model leaves the tuple as it was.
- Encoders of the single scalar types: a scalar is its bytes, its type and the types it goes with.
- User type values inside tuples and collections, and the comparison of user types by keyspace, name and fields: they are written like tuples.
- Encoding.DoublingShowsExactlyWhen: signed overflow is undefined in C++; the model takes the doubled count modulo 2^32.
- Deallocation by reference counting of anything but buffers, and atomicity of the counters.
