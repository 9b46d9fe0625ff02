# mos-tls-tunnel: a verified model

mos-tls-tunnel carries TCP connections through TLS or WebSocket, one connection to a tunnel or many
multiplexed on one session. This project models the parts of it that hold state and proves what they
promise:

- **The copy loop and the tunnel.** `CopyLoop` is the loop of `copyBuffer` over a mutable buffer, proved
  against a function of what the reader and the writer do. `Tunnel` is `openTunnel`: two such loops, a shared
  timeout, a once-only error and two connections, as a machine with one step for each atomic operation or
  library call and a clock of its own. `TunnelCopy` shows that each loop of the machine is a run of
  `copyBuffer`, `TunnelClock` and `IdleTimeout` say when the timeout strikes, `BusyTunnel` builds the run in which a
  silent direction ends a busy tunnel, `EndToEnd` chains any number of hops and `EndToEndCopy` shows that each hop is a
  run of `copyBuffer`.
- **The WebSocket adapter.** `WebSocketStream` is the wrapper that makes a byte stream of messages.
- **The client's session pool.** `ClientPool` is the code as it runs alone, on session and stream objects.
  `PoolMachine` interleaves any number of `getMuxStream` and `Close` calls step by step, with sessions dying
  at any moment; `PoolAlone` shows that its steps, taken by one call at a time, add up to the contracts of
  `ClientPool`, and `PoolProgram` is both calls as the program writes them, shown to take only runs of that
  machine. `SessionEconomy` bounds the sessions of those runs in which `getMuxStream` calls take turns and no
  stream is closed on a session that the call under way has passed, as when calls are atomic. `EconomyRun` shows
  that taking turns is not enough.
- **The two limits of a multiplexed connection.** `MuxAgreement` is the client's limit, the FIFO of SYN and
  FIN frames and the server's accept loop; `MuxWindow` is what a client can do about the server's limit.
  `AcceptLoop` is that loop as the program writes it, shown to take only runs of the machine.
- **The multi-user routing table.** `Routing` is the table and the controller, `RoutingLock` the table under
  its lock with lookups and sessions beside it.
- **Plugin options.** `PluginOptions` is the SIP003 option formatter and its inverse.

A machine is a type of states, a type of labels that carry everything left to chance, `Enabled` and `Step`.
`Exec(s, ls)` is the state after a list of labels, so a theorem about every `Feasible` list is a theorem about
every reachable state.

## Assumed of the libraries

- Connections: after `Close` a `Read` and a `Write` return an error; a `Write` takes a prefix of its argument;
  a `Read` returns at most the buffer's length. The results about the timeout also assume that calls return by
  their deadline, that none returns the timeout before its deadline, that local steps take no time and that a
  `Read` without an error returns some bytes.
- WebSocket: a message reader returns EOF with no bytes at the end of its message; connection errors are
  permanent and may come with the last bytes; nothing is sent after a close message (RFC 6455, section 5.5.1).
- Multiplexing: `NumStreams` counts the streams opened or accepted and not closed at this end, and is 0 on a
  closed session; `OpenStream` fails on a closed session and may fail on an open one; repeated closes are
  harmless; frames arrive in order; a FIN from the peer leaves the stream counted; a close of a stream sends a FIN
  and then takes the stream off the count, and a repeated one returns without waiting for that.
- `sync.Map`'s `Range` may show any session that was ever stored, and may end before it has shown any. Only
  `SessionEconomy` assumes that it shows every session that stays in the pool.
- `SessionEconomy` also assumes that `OpenStream` does not fail on a session that was just dialed and is still
  open. On pooled sessions it may fail there too; the bound is then one on the open sessions in the pool.

## Where the promise and the code differ

- A client within its limit can be cut off by the server's limit: the server counts a stream until its own
  handler closes it. `WellBehavedClientTrips` builds such a run for every server limit and every client limit
  above zero. `TripsExactlyOnLag` gives the exact condition: with client limit m, the test can succeed while n of
  the streams counted are closed at the client if and only if n + m exceeds the server's limit. The lag may be
  for good: a handler whose dial fails returns without closing its stream (`server.go:209-213`,
  `multi_user_http_mux.go:128-133`), and `AbandonedStreamsTrip` shows that once as many streams as the limit are
  abandoned so, any later one that is tested cuts the client off.
- A client that waits for the server's FIN of its streams is not safe either, since the FIN goes out before the
  stream is off the count: `NoWindowForEarlyFins` says that no window but zero on the streams without a FIN keeps
  it from being cut off. Where FINs come after, `WindowIsExact` says that the windows up to the server's limit do,
  and no other.
- The `-timeout` option is documented as the idle timeout of a connection. The code sets each deadline from
  the traffic of one direction, so a tunnel ends when either direction has been silent for the timeout, however
  busy the other is. `SilentDirectionEndsBusyTunnel` builds the run, for every timeout, with a byte moved in the
  other direction in each unit of time up to the last. `TimeoutIsExact` gives the exact condition: whenever time
  passes, the tunnel has ended if and only if one of the directions is by then idle for longer than the timeout,
  or something else than the timeout has ended it. So a tunnel busy in both directions never returns its timeout
  (`BusyTunnelLives`).
- `client.go` leaves a session that it has just dialed open, pooled and empty when `OpenStream` fails on it
  although it is not closed. `FailedOpenLeaks` builds the run, and `IdleOnlyByLeak` says that this is the only
  way: no open session is ever idle in a run if and only if that branch is never taken with the session open,
  empty and tended by no other call. Likewise `LostOnlyByDelete`: an open session is missing from the pool if
  and only if the search has deleted one that was still open.
- Calls that take turns, without being atomic, can still open a session too many: a stream may be closed on a
  session that the search has passed as full, before the call dials (`AtomicityMatters`). That close is the only
  way for a passed session to have room (`PassedStaysFull`), and without it the bound holds.
- The tokens of `FormatSSPluginOptions` do not always give the string back: `k=-v` and `k;v` share theirs.
  `FormatInvertible` says for which strings regrouping the tokens and joining the groups restores the string.
- The past deadline the tunnel sets on teardown can be overwritten by the other loop
  (`ExpiryCanBeOverwritten`); the close that follows is what ends it.

## Model

| member | source | states |
|---|---|---|
| CopyLoop.CopyBuffer | internal/core/common.go:115-147 | the loop over the mutable buffer takes from the reader, gives to the writer, counts and returns exactly what `Copy` says for the same reads and writes |
| CopyLoop.CopyAccounting | internal/core/common.go:121-146 | for every script of reads, data together with an error included, and of full, short or failing writes: output is a prefix of what was read, which is a prefix of what was sent; at most one buffer is read and not written; a nil result means the source ended and all of it was delivered |
| CopyLoop.CopyFaithful | internal/core/common.go:121-146 | against a writer that takes everything, chunking and buffer size do not matter: everything available is delivered, and the result is nil if the reader's first error is EOF, that error otherwise, and the timeout if none comes |
| CopyLoop.WriteFailureIsResult | internal/core/common.go:126-138 | the first Write that fails or takes less than it is given ends the loop: the result is the Write's own error, or "short write" without one, and delivered is all before it and the share it took |
| CopyLoop.EndingIsFirstError | internal/core/common.go:139-144 | when event i of a reader is the first with an error, its end is nil for EOF and that error otherwise, and what is available before it is the bytes of the events up to i |
| Tunnel.DeliversPrefix | internal/core/common.go:96-147 | in every run of the two loops, in either direction, the bytes delivered are a prefix of the bytes read, at most one buffer behind, and all of them after a nil result |
| Tunnel.ReportedErrorIsCause | internal/core/common.go:58-146 | what openTunnel returns is the error of a failed Write, "short write" for one that took less, or the error of a Read with nil for EOF, of a call that returned while the timeout, the deadlines and the connections were untouched by any teardown step; and both connections are closed |
| Tunnel.ClosedRunEnds | internal/core/common.go:105-146 | once both connections are closed every run has at most 29 steps left, with at most one more Read and one more Write by each loop, and one of the two if closed connections deliver nothing |
| Tunnel.OwnTeardown | internal/core/common.go:99-113 | a direction whose copying has ended is never blocked and closes both connections within six steps of its own, whatever the other direction does |
| Tunnel.TunnelCompletes | internal/core/common.go:83-92 | a run that cannot go on has ended both directions and returned the first reported result with both connections closed |
| Tunnel.ZeroTimeoutEndsWaiting | internal/core/common.go:105-125 | once the shared timeout is zero a loop that begins another iteration or Write never waits again |
| Tunnel.ExpiryCanBeOverwritten | internal/core/common.go:106-122 | a run from the start in which one loop's SetReadDeadline undoes the other's deadline in the past on a connection still open |
| TunnelClock.IdleBound | internal/core/common.go:105-145 | if from some moment on no byte moves in one direction, both loops have ended by the time the timeout has passed, wherever in its iteration each loop was and whatever moves in the other direction |
| TunnelClock.DeadlineIsOwnIdle | internal/core/common.go:121-125 | until a direction reports, a waiting call's deadline is exactly the timeout after its own direction's last byte |
| TunnelClock.TeardownTakesNoTime | internal/core/common.go:99-110 | from the end of one direction's copying no time passes until both loops have ended |
| IdleTimeout.TimeoutIsExact | internal/core/common.go:105-145 | the timeout strikes neither early nor late: whenever time passes, the tunnel has ended if and only if a direction is by then idle for longer than the timeout or its first ended call was another one than a timeout that moved nothing |
| IdleTimeout.TimeoutNeedsIdle | internal/core/common.go:58-145 | when openTunnel returns its timeout, a call of the direction reported timed out before anything was reported, when that direction had been idle for exactly the timeout |
| IdleTimeout.BusyTunnelLives | internal/core/common.go:58-145 | if neither direction is ever idle for the timeout, openTunnel does not return it |
| BusyTunnel.SilentDirectionEndsBusyTunnel | internal/core/common.go:105-145 | for every timeout, a run from the start in which one direction is never idle for more than one unit of time and yet both connections are closed, with the timeout of the silent direction as the result, once the timeout has passed |
| TunnelCopy.DirectionRunsCopyBuffer | internal/core/common.go:96-147 | a direction that has ended took, delivered and returned what copyBuffer does on the Reads and Writes it saw |
| TunnelCopy.NilMeansAllDelivered | internal/core/common.go:99-103 | a direction that reports nil ended because its source did, with every byte before that delivered |
| EndToEnd.EndToEndPrefix | internal/core/common.go:115-147 | over any number of hops, each a run of copyBuffer by `HopRunsCopyBuffer`, and any chunkings, errors, breaks and interleavings the destination has received a prefix of what was sent; while nothing has failed all the rest is under way in order |
| EndToEnd.NothingReadAfterError | internal/core/common.go:123-144 | a hop whose Read returned an error, with or without bytes, never reads again |
| EndToEndCopy.HopRunsCopyBuffer | internal/core/common.go:115-147 | a hop that has stopped took off its link and returned what copyBuffer does on the Reads and Writes it saw; what its writer took is on the next link unless that has broken, and nothing but what it read is |
| WebSocketStream.ConnWrapper.Read | internal/core/websocket.go:56-75 | a Read takes a prefix of the flattened messages, makes progress while bytes remain on a sound connection, passes the connection's error on with the last bytes or after them, and reports EOF only if the connection did |
| WebSocketStream.ConnWrapper.Write | internal/core/websocket.go:78-83 | a successful Write adds exactly its buffer as one message, a failed one adds nothing |
| WebSocketStream.ConnWrapper.CloseWithDeadline | internal/core/websocket.go:85-96 | the close message goes out at most once, after all data, and every later Read and Write fails |
| WebSocketStream.Drain | internal/core/websocket.go:56-75 | reading until an error returns exactly the byte stream and the connection's error |
| WebSocketStream.RoundTrip | internal/core/websocket.go:56-96 | writing any buffers, closing any number of times and reading at the far end through a buffer of any size is the identity on the byte stream |
| ClientPool.MuxSession.OpenStream | internal/core/cmux.go:42-55 | a stream is added if and only if the session is open, OpenStream works on it and it has fewer streams than the limit; otherwise nothing changes, and the answer is "too many" if and only if the limit is reached |
| ClientPool.MuxSession.TryCloseOnIdle | internal/core/cmux.go:57-64 | the session is closed if and only if it was or no stream is left |
| ClientPool.MuxStream.Close | internal/core/cmux.go:66-70 | the stream is off its session, which is closed if that leaves it empty |
| ClientPool.Client.Try | internal/core/client.go:285-305 | one session of the search serves if and only if it is open, working and below the limit, and leaves the pool if and only if it is closed, or below the limit with OpenStream failing on it |
| ClientPool.Client.Search | internal/core/client.go:285-307 | a pass in any order stops at the first session that serves; of the pool the sessions are gone that it visited and found closed, or below the limit and failing, and no others |
| ClientPool.Client.GetMuxStream | internal/core/client.go:282-318 | dials if and only if every pooled session is closed, failing or full; drops those visited that are closed, or below the limit and failing, and no others; adds one stream to one session on success; refuses as too many if and only if it has dialed and the limit is below one, which the check in NewClient excludes |
| PoolMachine.CapacityNeverExceeded | internal/core/cmux.go:42-55 | under any interleaving of opens, closes and deaths no session has more streams than the limit |
| PoolMachine.IdleCloseKillsNoStream | internal/core/cmux.go:57-64 | the Close of tryCloseOnIdle runs under the mutex with no stream on the session and takes no stream off any session |
| PoolMachine.StreamLeaves | internal/core/cmux.go:66-70 | a stream leaves its session only by a close of that stream or the session's death |
| PoolMachine.RemovedOnce | internal/core/cmux.go:66-70 | a stream that has left never comes back, so repeated closes take it off at most once |
| PoolMachine.CloseTakesOff | internal/core/cmux.go:66-70 | once a call is past the library's Close its stream is on no session, or an earlier Close of the same stream is still about to take it off, whatever other closes, opens and deaths go on |
| PoolMachine.ServedOnce | internal/core/cmux.go:42-55 | behind a stream that a call has got there is a step at which it held the session's mutex, the session was open and below the limit, and the stream was put on it |
| PoolMachine.FreshRefusalNeedsOthers | internal/core/client.go:309-316 | when getMuxStream has answered "too many streams" for the session it dialed, other calls held the limit of streams on it at the step that checked it |
| PoolMachine.IdleOnlyByLeak | internal/core/client.go:309-316 | in a run every open session always has a live stream, or a call about to open its first, or a call about to close it, if and only if OpenStream never fails on a session just dialed that is open, empty and tended by no other call |
| PoolMachine.LostOnlyByDelete | internal/core/client.go:299-315 | in a run every open session is always in the pool, unless about to be stored, if and only if the search never deletes a session that is still open |
| PoolMachine.NoIdleSessionLeaked | internal/core/client.go:282-318 | if OpenStream fails on closed sessions only, no open session is ever idle or missing from the pool |
| PoolMachine.QuiescentPool | internal/core/client.go:282-318 | with no call in flight: after a run without such a failure on a dialed session every open session has a stream, and there are no more of them than live streams; after a run without such a deletion they are all pooled |
| PoolMachine.FailedOpenLeaks | internal/core/client.go:309-316 | a run in which a failed OpenStream leaves an open, pooled, empty session |
| PoolMachine.DroppedForGood | internal/core/client.go:288-316 | a session taken out of the pool never comes back, whatever calls are in flight |
| PoolMachine.DeadGoFirst | internal/core/client.go:286-303 | a search that has met a closed session, or one on which OpenStream failed, goes on to another session, a dial or its end only when that session is out of the pool |
| PoolAlone.GetAlone | internal/core/client.go:282-318 | a run of the machine in which one getMuxStream call takes all the steps does what `ClientPool.Client.GetMuxStream` does, said of open, failing and full sessions: which session serves, when it dials, which sessions are dropped, and that all else is as before |
| PoolAlone.CloseAlone | internal/core/cmux.go:57-70 | and one in which a Close does, the first of its stream or a repeated one, that of `ClientPool.MuxStream.Close` |
| PoolProgram.Pool.GetMuxStream | internal/core/client.go:282-318 | the call as written, with other calls and deaths between any two of its steps, only takes runs of PoolMachine and keeps every session within the limit; it is through unless it has tried a held mutex as often as it has patience; it dials only after visiting every session that Range shows and was pooled when it began; it names the step that opened its stream on an open session below the limit, or that found others holding the limit on the session it dialed, and it reports another failure only if the library failed or the session is closed |
| PoolProgram.Pool.OpenStream | internal/core/cmux.go:42-55 | under interference openStream answers "too many" if and only if its check, under the mutex, found at least the limit of streams, fails otherwise only if the library does or the session is closed, and is without an answer only if it has tried the held mutex as often as it has patience |
| PoolProgram.Pool.CloseStream | internal/core/cmux.go:57-70 | Close as written, repeated ones included, under interference, is a run of the machine; afterwards its stream is on no session or an earlier Close of it is still at work, and it is through unless it has tried a held mutex as often as it has patience |
| SessionEconomy.PassedStaysFull | internal/core/client.go:285-316 | when calls take turns, the sessions a search has passed and that are still open in the pool stay full until it ends if and only if no stream is closed on one of them in the meantime |
| SessionEconomy.SessionEconomyBound | internal/core/client.go:282-318 | if getMuxStream calls take turns and no stream is closed on a session that the call under way has passed, as when calls are atomic, the open sessions in the pool never exceed the peak number of streams divided by the limit, rounded up, once no call has a dialed session still to use |
| SessionEconomy.SessionEconomyAlways | internal/core/client.go:282-318 | and at every moment there is at most one more |
| SessionEconomy.OpenSessionsBound | internal/core/client.go:282-318 | if moreover the search deletes closed sessions only, the bound is one on all open sessions whenever no call is under way |
| SessionEconomy.DialsWhenFull | internal/core/client.go:285-309 | in such a run, when a call comes to dial, every open session in the pool is full, so there are limit streams for each |
| SessionEconomy.AtomicCalls | internal/core/client.go:282-318 | runs in which no other call starts and no stream is closed while a getMuxStream call is under way are of that kind |
| EconomyRun.AtomicityMatters | internal/core/client.go:282-318 | a run in which calls only take turns: two sessions stay open with every call at rest although one would hold the most streams there ever were |
| MuxAgreement.TripsOnLagOnly | internal/core/common.go:173-177 | with a client limit of at most the server's, the server cuts a client off only if more of the streams it counts than the difference of the limits have been closed by the client, and only on an open session |
| MuxAgreement.TripsExactlyOnLag | internal/core/common.go:173-177 | the test can succeed with n such streams counted if and only if n and the client's limit together exceed the server's |
| MuxAgreement.WellBehavedClientTrips | internal/core/common.go:173-177 | for every server limit and every client limit above zero, a run in which a client that never holds more than one stream is cut off |
| MuxAgreement.CountIsExact | internal/core/common.go:155-181 | while the session is open the server counts exactly the streams queued, in the accept loop's hand or handed out and not closed, besides those whose close is under way |
| MuxAgreement.HandlerBound | internal/core/common.go:155-181 | no more handed-out streams are unclosed than the server's limit while the session is open, and at most one more after it died |
| MuxAgreement.AbandonedStreamsTrip | internal/core/common.go:173-177 | once as many handed-out streams as the server's limit are never closed by their handlers, every later stream tested on the open session trips |
| MuxWindow.WindowIsExact | internal/core/common.go:173-180 | where a FIN reaches the client after its stream is off the count, a client that opens a stream only while fewer than w have not had it is never cut off, for exactly the w up to the server's limit |
| MuxWindow.NoWindowForEarlyFins | internal/core/common.go:173-180 | where it may come before, such a client is safe for w = 0 only |
| AcceptLoop.Server.HandleClientMuxConn | internal/core/common.go:149-181 | the accept loop as written, for any maxStream, with frames, handlers and the session's death between any two of its steps, only takes runs of MuxAgreement and keeps its bound; it hands out a stream in every round, and returns only if it polled a dead session, AcceptStream failed, or its test counted more than maxStream on an open session |
| AcceptLoop.Server.AcceptStream | internal/core/common.go:159-172 | takes the first stream of the queue to the test unless the library fails or the queue is empty, and an error ends the loop |
| Routing.Mux.Add | internal/core/multi_user_http_mux.go:64-70 | each path of the batch leads to its last destination in the batch, other paths are kept |
| Routing.Mux.Del | internal/core/multi_user_http_mux.go:72-78 | the paths of the batch are gone, others are kept |
| Routing.MUServer.ServeHTTP | internal/core/multi_user_server.go:151-197 | option 1 or 2 without entries and options other than 1, 2, 3 and 9 are answered with 2 and their error text and change nothing; 1, 2 and 3 are answered with 1 and add, delete or reset as they should; 9 is answered with 1 and the number of paths; a request without a command changes nothing |
| Routing.LastMentionWins | internal/core/multi_user_http_mux.go:64-91 | a path leads to d if and only if a backward scan of all commands meets an add of it with d before any other mention or a reset |
| Routing.LeadsIffLastAdd | internal/core/multi_user_http_mux.go:64-91 | a path leads to d if and only if some add has an entry giving it d and nothing behind that entry, in its batch or in a later add, delete or reset, touches the path |
| Routing.RoutedIsTable | internal/core/multi_user_http_mux.go:93-98 | the paths in the table, and their number, are those whose last mention is an add |
| RoutingLock.LookupsSeeWholeCommands | internal/core/multi_user_http_mux.go:64-98 | every get and len sees the table after some number of complete commands, and later ones see no earlier table |
| RoutingLock.SessionsStick | internal/core/multi_user_http_mux.go:101-148 | every stream of a session is dialed to the destination looked up once at its upgrade, whatever commands follow |
| PluginOptions.FormatSSPluginOptions | internal/core/sip003.go:83-99 | succeeds if and only if every segment has at most one '=', and fails on the first that has more |
| PluginOptions.FormatPair | internal/core/sip003.go:91-92 | key=value gives the dashed key and the value, for any key and value without separators |
| PluginOptions.FormatLone | internal/core/sip003.go:89-90 | key alone gives the dashed key |
| PluginOptions.FormatRefuses | internal/core/sip003.go:93-94 | a segment with two '=' is refused and named |
| PluginOptions.FormatConcatenates | internal/core/sip003.go:84-98 | two strings joined with ';' give the tokens of the one and then of the other, and the first refusal wins |
| PluginOptions.TokenCount | internal/core/sip003.go:86-96 | an accepted string gives one token a segment and one more for each '=' |
| PluginOptions.FormatInvertible | internal/core/sip003.go:83-99 | regrouping and joining the tokens gives the string back if and only if no value starts with '-' |
| PluginOptions.DashedValueAmbiguous | internal/core/sip003.go:88-92 | a dashed value and two options give the same tokens |
| PluginOptions.Split | internal/core/sip003.go:85 | as many parts as separators and one more |
| PluginOptions.JoinSplit | internal/core/sip003.go:85 | joining the parts gives the string back |
| PluginOptions.SplitParts | internal/core/sip003.go:87 | no part contains the separator |

## Left out

- TLS, certificates, socket options, DNS override, unix sockets, subprotocol choice, flags, logging and signals: no logic to prove.
- The insides of smux, gorilla/websocket, net/http, encoding/json, sync.Map and sync.Pool: their contracts are assumed as stated above.
- `acquireIOBuf` and `releaseIOBuf`: the buffer a loop works on is a parameter; that the pool never hands one out twice is sync.Pool's contract.
- Accept loops that run for ever: `AcceptLoop` runs for any finite number of rounds, and an `AcceptStream` that would wait for ever fails.
- `firstErr`: modelled on values, as `Tunnel.ReportTo`, since its one use is a step of the tunnel machine.
- `openTunnel` and `openOneWayTunnel`: modelled as a machine, not as methods, since two goroutines run them at the same time; their loop is `CopyBuffer`.
- Waiting for ever: in `PoolProgram` a call that has found a mutex held as often as it has patience is left waiting, and `Range` shows the sessions of a given list.
- handleClientMuxConn on a session that could not be created: with the fixed configuration it always is.
- The mutex of a session, and the two halves of a stream's close, in `ClientPool`: one goroutine runs there; `PoolMachine` has them.
- What a server does after its limit has tripped: the loop returns and the connection is left to its caller.
- Delivery in both directions: teardown after one side's end may drop bytes of the other.
- Session economy beyond that: overlapping calls may all find no room and dial, and room may be made on a session already passed (`EconomyRun.AtomicityMatters`).
- A link of `EndToEnd` carries messages and hands out prefixes as the contracts of `WebSocketStream.ConnWrapper.Write` and `Read` say; that both are the same object is not stated.
- Concurrent writers on one WebSocket connection: nothing is claimed.
