# Verification model of the request plumbing and the hand-written codecs

The repository is a threshold-signing engine. Its cryptography is external; what it implements itself is
how requests travel: wallet clients reach a coordinator over HTTPS, the coordinator's many callers share
one TLS connection to each node, and nodes process requests on a worker pool. This project models that
plumbing and the codecs around it, and proves what they are for.

| file | what it models |
|---|---|
| Bytes, Strings, Wrappers | machine words and their memory images; searches in strings; optional values |
| Framing | the packed header, the body and the checksum of a message |
| TlsConnection | exact reads and writes over a library that transfers parts, asks to wait, or fails |
| MessageStream | sending and receiving messages at both ends, and whole streams of them |
| ThreadSafeQueue | the bounded blocking queue: object, and monitor with two condition variables |
| ThreadPool | task ownership, submitters and workers |
| NodeTcpClient | the table of pending promises and everything that competes for them |
| NodeTcpServer | accepting, processing and answering requests on a node |
| NodeWorkers | the node's requests as contexts of its worker pool |
| Correlation, AtMostOnce | client and node joined by byte streams: what a caller gets back, and how often a call is processed |
| Delivery | what becomes of a call's promise, and a request that is answered |
| WireRefinement, Disconnect, IdCollision | why a message may travel in one step; who is released by a disconnect; what one id too many does |
| HttpsSession | pipelined responses on one HTTPS connection |
| CoordinatorHttpsServer | stopping the HTTPS server while its threads are blocked |
| FireblocksKeyGenerator, PaillierProofs | the key-generation serializers and parsers |
| HttpHeaders, EnvConfig | the header printer and parser; the .env lists and endpoints |

How to read it. An object whose methods update it is a class; each method states its new value by a
function on a datatype value, and the theorems are about those functions. Concurrent code is a step
relation: an action is what one thread does between two points where another may run (a hold of a mutex,
an atomic operation, a handler up to its next shared access), `Run` relates two states by any list of
enabled actions, and the main theorems hold for every run. Values the program gets from outside (how many
bytes a call transfers, whether a wait times out, whether a handler throws, which thread is woken, which
order a map is walked in) are parameters of the actions, so the theorems hold for all of them.

Facts about the code that the proofs brought out:

- Phase5 makes a row for a sender only when it stores its first entry
  (mpc-sdk/providers/fireblocks/FireblocksKeyGenerator.cpp:370), so a sender with an empty map is missing
  from the table; `PaillierProofs.TableRoundTrip` gives the exact condition.
- The error id -1 is also the id of request number 2^64 - 1; correlation therefore holds for fewer than
  2^64 - 1 requests, and `IdCollision.ErrorIdCollides` gives a run of client and node for one id more at
  whose end a caller holds the refusal of another caller's request.
- `max_requests_per_connection` can be exceeded by one response, because a response may be written before
  its own request is counted (src/coordinator/network/wallet_server/src/HttpsSession.cpp:185-198).
- The checksum does not see an exchange of any two aligned chunks of any message
  (`Framing.ChunkSwapUndetected`); `Framing.CorruptionDetectedExactly` says which changes it does not see.
- The stop order is what keeps `Stop` from hanging (`CoordinatorHttpsServer.PoolFirstDeadlocks`).
- A request whose serialization throws after its promise was stored stays pending until the next disconnect
  (src/coordinator/network/node_client/src/NodeTcpClient.cpp:248-254; `Delivery.SerializationFailureLeaks`).
- After a disconnect the send queue stays shut, also across reconnects, so that no later request is sent
  (src/coordinator/network/node_client/src/NodeTcpClient.cpp:185-187); `Disconnect.DisconnectReleases` shows
  that nobody is left waiting for it.

## Model

| member | source | states |
|---|---|---|
| Framing.MadeMessageValid | src/common/network/framing/tcp.hpp:108-119 | a message built from a type and a payload is valid, under any request id, exactly when the payload is at most 1 MiB, although the length field is a truncated 32-bit size |
| Framing.ValidExactly | src/common/network/framing/tcp.hpp:127-147 | what validity is, in terms of the bytes: magic 0x4D504345, version 1, the announced size at most 1 MiB and right, and byte j of the checksum the exclusive or of every fourth body byte from j on |
| Framing.FirstDefect | src/common/network/framing/tcp.hpp:61-79 | a wrong magic number is reported whatever else is wrong, then a wrong version, then a size above the limit, then a wrong size |
| Framing.ComputeChecksum | src/common/network/framing/tcp.hpp:88-98 | the loop in strides of four, with its partial last chunk, yields for every length the word whose byte j is the exclusive or of all body bytes at indices congruent to j modulo 4 |
| Framing.ChecksumCollision | src/common/network/framing/tcp.hpp:88-98 | two bodies, of any lengths, have the same checksum exactly when every lane of their bytewise exclusive or is zero |
| Framing.ChunkCorruptionDetected | src/common/network/framing/tcp.hpp:127-147 | any change confined to one aligned four-byte chunk of a valid message is reported as a checksum mismatch |
| Framing.CorruptionDetectedExactly | src/common/network/framing/tcp.hpp:127-147 | what a receiver says to any changed body of a valid message: a change of length is always noticed, any other unless every lane of what was changed is zero |
| Framing.ChunkSwapUndetected | src/common/network/framing/tcp.hpp:88-98 | in every valid message, exchanging any two aligned four-byte chunks, wherever they stand, leaves it valid |
| Framing.HeaderRoundTrip | src/common/network/framing/tcp.hpp:44-59 | the packed 32-byte image of a header reads back as the same header |
| Framing.HeaderImageRoundTrip | src/common/network/framing/tcp.hpp:44-59 | every 32 bytes are the image of exactly the header they read as |
| Framing.FrameLayout | src/common/network/framing/tcp.hpp:44-59 | the offsets and byte order of magic, version, type, length, checksum, timestamp, request id and body in a frame |
| Bytes.LittleEndianByte | src/common/network/framing/tcp.hpp:94 | byte i of a word's image is its digit i to the base 256 |
| Framing.ParseFrame | src/common/network/framing/tcp.hpp:60-79 | the frame of a message, followed by anything, is taken for that message and that remainder, or rejected for that message's own defect |
| Framing.HeaderRefused | src/common/network/framing/tcp.hpp:61-79 | a receiver refuses a frame with a wrong magic number, version or length on its header alone, whatever body and bytes follow |
| Framing.ParseSound | src/common/network/framing/tcp.hpp:127-147 | nothing is invented: what is accepted is valid, and the bytes consumed are exactly its frame |
| Framing.TornFrame | src/common/network/framing/tcp.hpp:44-99 | a proper prefix of a frame never parses to a message |
| Framing.FramesInjective | src/common/network/framing/tcp.hpp:101-158 | two lists of valid messages with the same bytes are the same list |
| TlsConnection.TlsConnection.Read | src/common/network/tls/src/TlsConnection.cpp:192-220 | one library call moves a non-empty prefix of the incoming bytes to the buffer at its place, or reports why not and leaves the right connection state |
| TlsConnection.TlsConnection.Write | src/common/network/tls/src/TlsConnection.cpp:222-250 | one library call appends a non-empty prefix of the data to what was written, or reports why not |
| TlsConnection.TlsConnection.HandleFailure | src/common/network/tls/src/TlsConnection.cpp:424-461 | which error and which connection state each library failure leads to |
| TlsConnection.TlsConnection.ReadExact | src/common/network/tls/src/TlsConnection.cpp:252-277 | on success the buffer followed by what is still to come is what was to come before; always the loop equals the recursive exact read |
| TlsConnection.TlsConnection.WriteExact | src/common/network/tls/src/TlsConnection.cpp:279-304 | the loop over partial writes and waits equals the recursive exact write |
| TlsConnection.ReadExactlySound | src/common/network/tls/src/TlsConnection.cpp:252-277 | for every script of partial reads, waits and failures: all bytes asked for are taken in order, or fewer together with an error |
| TlsConnection.WriteExactlySound | src/common/network/tls/src/TlsConnection.cpp:279-304 | for every script: exactly a prefix of the data goes out, the whole of it if and only if success is reported |
| TlsConnection.ReadExactlyCompletes | src/common/network/tls/src/TlsConnection.cpp:252-277 | however transfers are cut and interleaved with waits, enough of them over enough bytes complete the read |
| TlsConnection.WriteExactlyCompletes | src/common/network/tls/src/TlsConnection.cpp:279-304 | however transfers are cut and interleaved with waits, enough of them complete the write |
| TlsConnection.CallEndsAs | src/common/network/tls/src/TlsConnection.cpp:424-461 | a single read or write that meets a closed peer, a failed system call, a TLS failure or a wish to wait moves no byte and ends with exactly that error and connection state |
| TlsConnection.ReadExactlyEndsAs | src/common/network/tls/src/TlsConnection.cpp:252-277 | an exact read that meets such an event, every wait before it having succeeded, either had all its bytes or ends with exactly that event's error and state; with too few bytes to come or none transferred it is the latter |
| TlsConnection.WriteExactlyEndsAs | src/common/network/tls/src/TlsConnection.cpp:279-304 | the same for an exact write |
| TlsConnection.WaitTimesOut | src/common/network/tls/src/TlsConnection.cpp:265-270 | a wait that fails is a timeout at once, with nothing moved and the connection as it was |
| TlsConnection.EndedForGood | src/common/network/tls/src/TlsConnection.cpp:198-201 | on a connection that has ended every later transfer is refused and moves nothing |
| MessageStream.ClientSendMessage | src/coordinator/network/node_client/src/NodeTcpClient.cpp:332-358 | the client's transfer is header first, then the announced number of body bytes |
| MessageStream.NodeSendMessage | src/node/network/src/NodeTcpServer.cpp:625-657 | the node's transfer is header first, then its whole body unless none is announced |
| MessageStream.ReceiveMessage | src/node/network/src/NodeTcpServer.cpp:659-716 | receiving at either end is header, basic check, body, full check, with the outcome of the first that fails |
| MessageStream.SendSound | src/coordinator/network/node_client/src/NodeTcpClient.cpp:332-358 | sending puts a prefix of the message's frame on the wire, the whole frame exactly on success |
| MessageStream.ReceiveMatchesParse | src/coordinator/network/node_client/src/NodeTcpClient.cpp:360-407 | unless I/O fails, a receiver accepts or rejects exactly what the parser finds at the head of the bytes, and leaves the rest |
| MessageStream.ReceiveFailsAsItsRead | src/coordinator/network/node_client/src/NodeTcpClient.cpp:365-395 | a receiver reports an I/O failure only where one of its exact reads failed, with that read's error |
| MessageStream.SendAllSound | src/coordinator/network/node_client/src/NodeTcpClient.cpp:520-560 | a sequence of sends leaves a prefix of the framed stream on the wire, all of it exactly if every send succeeded |
| MessageStream.SendAllCompletes | src/coordinator/network/node_client/src/NodeTcpClient.cpp:520-560 | a writer whose library only transfers, often enough, or asks to wait sends every message |
| MessageStream.ReceiveAllSound | src/node/network/src/NodeTcpServer.cpp:659-716 | from any prefix of a framed stream, however cut and whatever fails, a reader gets a prefix of the messages, all valid, and a complete reader leaves exactly the unused bytes |
| MessageStream.StreamRoundTrip | src/common/network/tls/src/TlsConnection.cpp:252-304 | writing any list of messages with arbitrary partial writes and reading with arbitrary chunking yields a prefix of the list, and a complete read the list itself with no byte left over; from valid messages and two scripts that only transfer or ask to wait it follows that all is sent and read |
| ThreadSafeQueue.ThreadSafeQueue.Push | src/common/utils/queue/ThreadSafeQueue.hpp:63-79 | a pass blocks on a full open queue, is refused after shutdown, and otherwise appends |
| ThreadSafeQueue.ThreadSafeQueue.TryPush | src/common/utils/queue/ThreadSafeQueue.hpp:82-99 | like Push, but a pass that would block reports a timeout once time has run out |
| ThreadSafeQueue.ThreadSafeQueue.Pop | src/common/utils/queue/ThreadSafeQueue.hpp:142-159 | a pass blocks on an empty open queue, reports shutdown only on an empty one, and otherwise removes the oldest item |
| ThreadSafeQueue.ThreadSafeQueue.TryPop | src/common/utils/queue/ThreadSafeQueue.hpp:162-180 | like Pop, with the timeout verdict |
| ThreadSafeQueue.ThreadSafeQueue.Shutdown | src/common/utils/queue/ThreadSafeQueue.hpp:183-191 | only the flag changes; items stay |
| ThreadSafeQueue.ThreadSafeQueue.Clear | src/common/utils/queue/ThreadSafeQueue.hpp:221-227 | only the items go; the flag stays |
| ThreadSafeQueue.StepIsFifo | src/common/utils/queue/ThreadSafeQueue.hpp:63-191 | every step keeps pushed = removed + contents within the bound; each verdict tells its thread the truth, blocking included; only Shutdown sets the flag, and only passes and Clear change the contents |
| ThreadSafeQueue.QueueRefinesFifo | src/common/utils/queue/ThreadSafeQueue.hpp:63-191 | over any run of any threads: what was removed, then what is queued, is what was pushed, in order; the bound holds; nothing is pushed after shutdown |
| ThreadSafeQueue.PopDrains | src/common/utils/queue/ThreadSafeQueue.hpp:142-159 | from a shutdown on, over any run without Clear and for fresh and resumed consumers alike, the items handed out followed by those still queued are the items that were queued, and the next pop gets the front item or, on an empty queue, the news of the shutdown |
| ThreadSafeQueue.NoLostWakeup | src/common/utils/queue/ThreadSafeQueue.hpp:63-191 | with notify_one, barging, spurious wakeups, timed waits and Clear: while a consumer sleeps, queued items are at most the woken consumers, dually for producers and free slots; after both notify_all calls of a shutdown nobody sleeps |
| ThreadSafeQueue.QuietSleepersAreIdle | src/common/utils/queue/ThreadSafeQueue.hpp:63-191 | when no woken thread is left, consumers sleep only on an empty queue, producers only on a full one, never both |
| ThreadSafeQueue.ShutdownReleases | src/common/utils/queue/ThreadSafeQueue.hpp:183-191 | after shutdown each woken thread leaves with a verdict other than timeout |
| ThreadPool.TaskObject.MoveConstruct | src/common/utils/threading/ThreadPool.hpp:27-31 | the new task is the old one, and the source owns nothing any more |
| ThreadPool.TaskObject.MoveAssign | src/common/utils/threading/ThreadPool.hpp:33-46 | what the target owned is deleted, the source's task is taken over, the source owns nothing; self-assignment does nothing |
| ThreadPool.TaskObject.Destroy | src/common/utils/threading/ThreadPool.hpp:52-57 | exactly the owned context is deleted, and nothing at a second destruction |
| ThreadPool.ThreadPool.Submit | src/common/utils/threading/ThreadPool.hpp:101-135 | a submission ends with the context in the queue, or deleted if it was owned and the pool refused |
| ThreadPool.ThreadPool.Work | src/common/utils/threading/ThreadPool.hpp:158-191 | one turn of a worker: stop test, pop by move assignment, run, destroy, with the count of active tasks |
| ThreadPool.ThreadPool.Shutdown | src/common/utils/threading/ThreadPool.hpp:137-150 | the first shutdown sets the stop flag, shuts the queue and joins every worker; a second one changes nothing |
| ThreadPool.TurnConserves | src/common/utils/threading/ThreadPool.hpp:101-191 | no turn of any thread loses or duplicates a context: held and queued before is held, queued or deleted after |
| ThreadPool.OwnedContextsLinear | src/common/utils/threading/ThreadPool.hpp:101-191 | over every run each context given to SubmitOwned is run at most once and deleted at most once, never before it is run, and nothing else is ever deleted |
| ThreadPool.DestroyedDeletesAll | src/common/utils/threading/ThreadPool.hpp:82-85 | once the pool is destroyed, exactly the contexts given away have been deleted, each once, whether run, rejected or left in the queue |
| ThreadPool.WorkerRunsBeforeDeleting | src/common/utils/threading/ThreadPool.hpp:174-190 | over every run a worker deletes a context only after that context was run, exactly once |
| ThreadPool.SubmissionAccepted | src/common/utils/threading/ThreadPool.hpp:101-135 | a submission refused by a stopped pool or a shut queue deletes what it owns and queues nothing; with room in an open queue it is queued last and nothing is deleted |
| ThreadPool.WorkerLeaves | src/common/utils/threading/ThreadPool.hpp:160 | a worker leaves at its stop test exactly if the pool has stopped, whatever is queued |
| NodeTcpClient.NodeTcpClient.ResolvePending | src/coordinator/network/node_client/src/NodeTcpClient.cpp:544-554 | under the lock the promise stored under an id is resolved and its entry removed; an unknown id changes nothing |
| NodeTcpClient.EventResolves | src/coordinator/network/node_client/src/NodeTcpClient.cpp:302-315 | push failure, timeout, send failure and reply each take exactly the promise of their id out of the map and resolve it in their own way, leaving all others alone; without a promise under their id they change nothing |
| NodeTcpClient.SweepResolves | src/coordinator/network/node_client/src/NodeTcpClient.cpp:209-220 | the sweep fails every pending promise with the closed connection and touches no other |
| NodeTcpClient.NodeTcpClient.TakeRequestId | src/coordinator/network/node_client/src/NodeTcpClient.cpp:241-242 | ids come from a counter, modulo 2^64 on the wire |
| NodeTcpClient.NodeTcpClient.RegisterPromise | src/coordinator/network/node_client/src/NodeTcpClient.cpp:244-251 | a promise is stored under its id; one that was stored there before is broken |
| NodeTcpClient.NodeTcpClient.PushRequest | src/coordinator/network/node_client/src/NodeTcpClient.cpp:258-272 | the timed push of a request's frame into the bounded send queue |
| NodeTcpClient.FrameCarriesRequest | src/coordinator/network/node_client/src/NodeTcpClient.cpp:616-641 | the frame a call sends carries its body, message type, time and id, and the node will accept it up to 1 MiB |
| NodeTcpClient.NodeTcpClient.DeliverReply | src/coordinator/network/node_client/src/NodeTcpClient.cpp:577-593 | a reply fulfils the promise pending under its id, if any |
| NodeTcpClient.NodeTcpClient.BeginDisconnect | src/coordinator/network/node_client/src/NodeTcpClient.cpp:171-192 | only the first disconnect of a connection clears the flags and shuts the send queue |
| NodeTcpClient.NodeTcpClient.FailPending | src/coordinator/network/node_client/src/NodeTcpClient.cpp:209-220 | the loop fails every pending promise exactly once, in whatever order the map has, and empties the map |
| NodeTcpClient.PromiseConservation | src/coordinator/network/node_client/src/NodeTcpClient.cpp:210-220 | over every race of replies, timeouts, send failures, push failures and disconnects: a stored promise is pending or resolved in one way, never twice; the keys of the map are exactly the unresolved ids, all below the next id; a fulfilled promise holds a message with its own id |
| NodeTcpClient.ReusedIdBreaksPromise | src/coordinator/network/node_client/src/NodeTcpClient.cpp:241-251 | why the bound on ids is needed: for every call there is a course of events without any failure in which the call 2^64 later destroys its promise unresolved |
| NodeTcpServer.NodeTcpServer.AcceptRequest | src/node/network/src/NodeTcpServer.cpp:456-462 | an accepted frame becomes one job of its own |
| NodeTcpServer.NodeTcpServer.RefuseRequest | src/node/network/src/NodeTcpServer.cpp:464-491 | a frame the pool refused is answered under the id -1 |
| NodeTcpServer.NodeTcpServer.ProcessMessage | src/node/network/src/NodeTcpServer.cpp:543-594 | the response of each path (invalid, no handler, reply, exception) under the request's id, and whether the handler was called |
| NodeTcpServer.NodeTcpServer.PushResponse | src/node/network/src/NodeTcpServer.cpp:596-604 | the timed push ends the job whatever its verdict, unless it still waits |
| NodeTcpServer.ResponsesValid | src/node/network/src/NodeTcpServer.cpp:550-622 | whatever happens to a request, the response carries its id and passes the client's validation, unless a handler's own reply exceeds 1 MiB; a handler's reply is not altered |
| NodeTcpServer.ErrorsSayWhy | src/node/network/src/NodeTcpServer.cpp:550-622 | whenever no handler replied, the response's bytes are "success=false|error=" and the reason of that path, under the request's type and id |
| NodeTcpServer.HandlerCalledExactly | src/node/network/src/NodeTcpServer.cpp:552-591 | the handler is called for a frame exactly if the request is valid and a handler is configured |
| NodeTcpServer.ReplyQueued | src/node/network/src/NodeTcpServer.cpp:597-604 | a response enters the send queue exactly if that is open and has room; its job is over unless it still waits |
| NodeTcpServer.RefusalQueued | src/node/network/src/NodeTcpServer.cpp:467-484 | a refusal says what it is, under the request's type and the id -1, and enters the queue under the same condition |
| NodeTcpServer.NodeAtMostOnce | src/node/network/src/NodeTcpServer.cpp:437-623 | over every run, per accepted frame the handler runs at most once and at most one response enters the send queue, under the frame's id; every other queued response carries -1 |
| NodeWorkers.WorkerFindsFreshJob | src/node/network/src/NodeTcpServer.cpp:456-462 | a worker about to run a context finds its job not begun: this follows from the pool's ownership of contexts, not from a flag of the node |
| NodeWorkers.StepSimulated | src/common/utils/threading/ThreadPool.hpp:158-191 | every turn of the pool's threads does to the node nothing, or one step that the node's own model allows |
| NodeWorkers.PoolRunsHandlerAtMostOnce | src/node/network/src/NodeTcpServer.cpp:437-623 | over every run of receive loop, workers, shutdown and destruction the handler is called at most once and answered at most once per frame given to the pool |
| Correlation.TakeKeepsWire | src/node/network/src/NodeTcpServer.cpp:659-716 | on a wire with possibly torn tail, the next message read is the oldest message sent |
| WireRefinement.SendIsPut | src/node/network/src/NodeTcpServer.cpp:625-657 | a byte-level send puts the whole frame on the wire on success, and otherwise leaves a proper part of it and the wire closed |
| WireRefinement.ReceiveIsTake | src/coordinator/network/node_client/src/NodeTcpClient.cpp:360-407 | a byte-level receive takes the next message off the wire, rejects what the parser rejects, or fails in I/O |
| WireRefinement.TornTailUnseen | src/common/network/tls/src/TlsConnection.cpp:252-304 | a frame only partly written changes nothing for a reader, so that sending may count as one step |
| Correlation.StepKeepsInv | src/coordinator/network/node_client/src/NodeTcpClient.cpp:230-330 | every step of callers, loops, workers, failures, disconnects and reconnects keeps all messages under way requests of their calls or replies produced for them |
| Correlation.EndToEndCorrelation | src/coordinator/network/node_client/src/NodeTcpClient.cpp:280-330 | in every reachable state of a client with fewer than 2^64 - 1 ids taken: a response handed to a caller carries that call's id and was produced by the node, as an answer, from exactly the frame this call sent, and that frame carries the body, type and time the call was issued with in this run |
| Correlation.RequestsAreIssued | src/coordinator/network/node_client/src/NodeTcpClient.cpp:241-256 | the frames that exist are those of the calls issued in the run, the n-th of which took id n; each carries its own call's request |
| Delivery.TimeoutSettles | src/coordinator/network/node_client/src/NodeTcpClient.cpp:302-315 | after the timeout path the call's promise is resolved, by the timeout if it was pending, and the caller gets nothing |
| Delivery.PushFailureSettles | src/coordinator/network/node_client/src/NodeTcpClient.cpp:261-272 | after a failed push the call's promise is abandoned |
| Delivery.SendFailureSettles | src/coordinator/network/node_client/src/NodeTcpClient.cpp:540-554 | after a failed send the promise of the frame's call is resolved, by the failure if it was pending |
| Delivery.DeliverySettles | src/coordinator/network/node_client/src/NodeTcpClient.cpp:577-593 | a delivered reply resolves its call's promise, and a caller that waits can get back exactly that reply; under the error id nothing changes |
| Delivery.SerializationFailureLeaks | src/coordinator/network/node_client/src/NodeTcpClient.cpp:248-254 | over every run the promise of a request whose serialization threw stays in the map, unresolved, until a disconnect sweeps it |
| Delivery.RequestIsAnswered | src/coordinator/network/node_client/src/NodeTcpClient.cpp:280-324 | for every request and every outcome of the handler within the size limit there is a run in which the caller gets exactly the node's answer to it |
| Correlation.SystemPromises | src/coordinator/network/node_client/src/NodeTcpClient.cpp:565-600 | in every such state promises are conserved, and a reply with id -1 or an id no call has changes nothing |
| IdCollision.ErrorIdCollides | src/node/network/src/NodeTcpServer.cpp:478-491 | the bound is sharp: for every size of the node's queue a run that takes one id more ends with a caller holding a response that was never produced for its request, the refusal of call 1 |
| Disconnect.DisconnectReleases | src/coordinator/network/node_client/src/NodeTcpClient.cpp:171-220 | once both parts of a disconnect have happened, with anything before, between and after them, reconnects included, whoever waits for a response or has given up finds the promise resolved, and no request is queued any more |
| Disconnect.NothingSentUntilReconnect | src/coordinator/network/node_client/src/NodeTcpClient.cpp:171-192 | from a disconnect until the next connection no call is issued, nothing is popped or sent, and the wire takes no bytes |
| AtMostOnce.EndToEndAtMostOnce | src/node/network/src/NodeTcpServer.cpp:437-492 | over every run of client and node together: accepted frames are requests of distinct calls, and for each the handler ran at most once and at most one response was queued |
| AtMostOnce.DeliveredWasAcceptedOnce | src/coordinator/network/node_client/src/NodeTcpClient.cpp:320-324 | a caller that got a response had its own request accepted by the node exactly once |
| HttpsSession.HttpsSession.PushFuture | src/coordinator/network/wallet_server/src/HttpsSession.cpp:185-188 | a future joins the end of the pending queue under the lock |
| HttpsSession.HttpsSession.CountRequest | src/coordinator/network/wallet_server/src/HttpsSession.cpp:198 | one more request counted as handled, nothing else touched |
| HttpsSession.HttpsSession.TryStartWriting | src/coordinator/network/wallet_server/src/HttpsSession.cpp:201-204 | the compare-and-swap succeeds exactly when the token was free, which it takes |
| HttpsSession.HttpsSession.TakeFuture | src/coordinator/network/wallet_server/src/HttpsSession.cpp:211-221 | under the lock the oldest future is taken, or the token given back if there is none |
| HttpsSession.HttpsSession.ShouldKeepAlive | src/coordinator/network/wallet_server/src/HttpsSession.cpp:330-342 | keep-alive as long as fewer than max_requests were counted and the session has not expired |
| HttpsSession.HttpsSession.DoClose | src/coordinator/network/wallet_server/src/HttpsSession.cpp:290-328 | the session becomes inactive, once |
| HttpsSession.ResponsesInRequestOrder | src/coordinator/network/wallet_server/src/HttpsSession.cpp:207-288 | section 9.3.2 of RFC 9112: for every completion order the responses written are the answers to the first requests in order of arrival, one each, every one what the router made of that very request; at most one writer is busy |
| HttpsSession.NoStrandedResponse | src/coordinator/network/wallet_server/src/HttpsSession.cpp:167-221 | while the session is open, a queued response has a busy writer or an OnRead between its push and its compare-and-swap |
| HttpsSession.QuietSessionHasAnsweredAll | src/coordinator/network/wallet_server/src/HttpsSession.cpp:185-221 | an open session whose handlers have all returned has answered every request that arrived |
| HttpsSession.KeepAliveBound | src/coordinator/network/wallet_server/src/HttpsSession.cpp:250-287 | at most max_requests + 1 responses are written (one if max_requests is at most 1), and none after the first not kept alive |
| HttpsSession.ResponseMarked | src/coordinator/network/wallet_server/src/HttpsSession.cpp:330-342 | a response is written exactly if there is one and it serializes, and is kept alive exactly if fewer than max_requests are counted and the session has not expired |
| HttpsSession.NothingAfterTheEnd | src/coordinator/network/wallet_server/src/HttpsSession.cpp:234-285 | over every later run nothing is written after a failed write, a missing response or one not kept alive, and after any failure or Stop the session stays closed and reads at most one more request |
| HttpsSession.KeepAliveBoundReached | src/coordinator/network/wallet_server/src/HttpsSession.cpp:185-204 | for every max_requests a run with exactly that many responses: the bound is tight |
| CoordinatorHttpsServer.CoordinatorHttpsServer.Stop | src/coordinator/network/wallet_server/src/CoordinatorHttpsServer.cpp:132-171 | a running server is stopped by its effects in this order: acceptor, io_context, a join of every I/O thread, then the pool with its workers; a second call does nothing |
| CoordinatorHttpsServer.CoordinatorHttpsServer.Join | src/coordinator/network/wallet_server/src/CoordinatorHttpsServer.cpp:158-162 | a join needs a joinable thread and a stopped io_context, and makes exactly that thread not joinable |
| CoordinatorHttpsServer.CoordinatorHttpsServer.ShutThePool | src/coordinator/network/wallet_server/src/CoordinatorHttpsServer.cpp:166-168 | the pool may be shut down only when no I/O thread is left to join; then it is stopped, its queue shut and every worker joined |
| CoordinatorHttpsServer.StepDecreases | src/coordinator/network/wallet_server/src/HttpsSession.cpp:190-231 | after io_context.stop() every step of an I/O thread, a worker or Stop lowers one measure over threads and queued tasks |
| CoordinatorHttpsServer.HandlersOnSession | src/coordinator/network/wallet_server/src/HttpsSession.cpp:148-221 | what the handlers do to a session: a new promise behind the others, one holder of the token, the oldest future to the holder, and none but this session touched |
| CoordinatorHttpsServer.AllHeldKept | src/coordinator/network/wallet_server/src/HttpsSession.cpp:185-196 | an unresolved promise always has its task queued or about to run, or its OnRead on the way to submit it |
| CoordinatorHttpsServer.Progress | src/coordinator/network/wallet_server/src/CoordinatorHttpsServer.cpp:154-168 | as long as Stop has not returned, something other than a new handler can happen, also with threads blocked in future.get() or a full Emplace |
| CoordinatorHttpsServer.StopTerminates | src/coordinator/network/wallet_server/src/CoordinatorHttpsServer.cpp:132-171 | from any reachable state after io_context.stop(), every run is bounded, and one that cannot go on has Stop returned, all I/O threads and all workers exited |
| CoordinatorHttpsServer.PoolFirstDeadlocks | src/coordinator/network/wallet_server/src/CoordinatorHttpsServer.cpp:157-168 | the order matters: with the pool shut down before the joins a reachable state is stuck with an I/O thread in future.get() |
| FireblocksKeyGenerator.SerializeDecommitment | mpc-sdk/providers/fireblocks/FireblocksKeyGenerator.cpp:13-46 | the appended image is fixed parts, then each key behind its truncated 32-bit size |
| FireblocksKeyGenerator.DeserializeDecommitment | mpc-sdk/providers/fireblocks/FireblocksKeyGenerator.cpp:48-81 | the moving offset reads the parts in that order, and leaves the data exactly when the parser finds too few bytes |
| FireblocksKeyGenerator.DecommitmentRoundTrip | mpc-sdk/providers/fireblocks/FireblocksKeyGenerator.cpp:13-81 | deserializing the image, with anything behind it, gives the value back if and only if both keys are below 4 GiB |
| FireblocksKeyGenerator.DecommitmentLayout | mpc-sdk/providers/fireblocks/FireblocksKeyGenerator.cpp:13-46 | the offsets of ack, seed, share, both sizes and both keys |
| FireblocksKeyGenerator.DecommitmentInBounds | mpc-sdk/providers/fireblocks/FireblocksKeyGenerator.cpp:48-81 | the offset stays within the data if and only if the data begin with the image of some value with keys below 4 GiB |
| FireblocksKeyGenerator.DecommitmentInjective | mpc-sdk/providers/fireblocks/FireblocksKeyGenerator.cpp:13-46 | no image of a value with keys below 4 GiB equals or begins that of another |
| FireblocksKeyGenerator.SerializeZKProofs | mpc-sdk/providers/fireblocks/FireblocksKeyGenerator.cpp:84-111 | the appended image is the scalar, then each proof behind its truncated 32-bit size |
| FireblocksKeyGenerator.DeserializeZKProofs | mpc-sdk/providers/fireblocks/FireblocksKeyGenerator.cpp:113-138 | the moving offset reads the parts in that order |
| FireblocksKeyGenerator.ZKProofsRoundTrip | mpc-sdk/providers/fireblocks/FireblocksKeyGenerator.cpp:84-138 | identity after serialization, with anything behind, if and only if both proofs are below 4 GiB |
| FireblocksKeyGenerator.ZKProofsLayout | mpc-sdk/providers/fireblocks/FireblocksKeyGenerator.cpp:84-111 | the offsets of scalar, both sizes and both proofs |
| FireblocksKeyGenerator.ZKProofsInBounds | mpc-sdk/providers/fireblocks/FireblocksKeyGenerator.cpp:113-138 | the offset stays within the data if and only if the data begin with the image of a value with proofs below 4 GiB |
| FireblocksKeyGenerator.ZKProofsInjective | mpc-sdk/providers/fireblocks/FireblocksKeyGenerator.cpp:84-111 | no image of a value with proofs below 4 GiB equals or begins that of another |
| PaillierProofs.WriteProofs | mpc-sdk/providers/fireblocks/FireblocksKeyGenerator.cpp:300-320 | count, then id, size and bytes of each entry, for any order of the keys |
| PaillierProofs.ReadSender | mpc-sdk/providers/fireblocks/FireblocksKeyGenerator.cpp:343-371 | one sender's entries become its row, made when the first entry is stored; too few bytes are noticed at the copy that would leave the data |
| PaillierProofs.ReadProofs | mpc-sdk/providers/fireblocks/FireblocksKeyGenerator.cpp:340-372 | the loop over all senders |
| PaillierProofs.RowRoundTrip | mpc-sdk/providers/fireblocks/FireblocksKeyGenerator.cpp:300-371 | the reader rebuilds exactly the written map and consumes every byte if count and lengths are below 2^32, and rebuilds it only then |
| PaillierProofs.RowLayout | mpc-sdk/providers/fireblocks/FireblocksKeyGenerator.cpp:300-320 | the count first, then id, size and bytes of each entry in the order walked |
| PaillierProofs.RowMeaning | mpc-sdk/providers/fireblocks/FireblocksKeyGenerator.cpp:353-371 | from any list of entries each id gets the bytes of its last entry, and no other id appears |
| PaillierProofs.ReadInBounds | mpc-sdk/providers/fireblocks/FireblocksKeyGenerator.cpp:346-371 | the offset stays within the data if and only if the data begin with the image of some list of fewer than 2^32 entries below 4 GiB each, at whose end it then stands |
| PaillierProofs.TableRoundTrip | mpc-sdk/providers/fireblocks/FireblocksKeyGenerator.cpp:340-372 | the whole sender-by-target table is rebuilt if and only if every map is within the limits and no sender's map is empty |
| PaillierProofs.EmptyRowLost | mpc-sdk/providers/fireblocks/FireblocksKeyGenerator.cpp:353-370 | the concrete failure: a sender that wrote an empty map is missing from the table |
| HttpHeaders.HttpHeaders.ToString | src/common/network/framing/http.hpp:19-35 | the printed lines, with two of the four left out when empty |
| HttpHeaders.TextOfHeaders | src/common/network/framing/http.hpp:19-35 | the printed text, character by character, with its four field names |
| HttpHeaders.HttpHeaders.FromString | src/common/network/framing/http.hpp:37-73 | the loop over positions equals the recursive parser, started from the fields the object had |
| HttpHeaders.LineAt | src/common/network/framing/http.hpp:41-47 | the end of a printed line is found where it was printed, also for a value ending in CR |
| HttpHeaders.ParsedNoCrLf | src/common/network/framing/http.hpp:37-73 | no parsed value ever contains CRLF |
| HttpHeaders.HeadersRoundTrip | src/common/network/framing/http.hpp:19-73 | parsing the printed form into a fresh object gives the headers back if and only if no value contains CRLF, no non-empty value starts with a blank, and Content-Type and User-Agent are not empty |
| HttpHeaders.ForeignLineIgnored | src/common/network/framing/http.hpp:47-71 | a line of another field, or of none, changes nothing wherever it stands |
| HttpHeaders.UnterminatedIgnored | src/common/network/framing/http.hpp:41-45 | what stands behind the last line end is not read |
| EnvConfig.EnvConfig.ParseLine | src/common/env/EnvConfig.cpp:213-247 | blank lines and comments are accepted without effect, a line without = or without key is refused, any other sets one key |
| EnvConfig.EnvConfig.GetStringArray | src/common/env/EnvConfig.cpp:93-122 | the loop over commas yields the trimmed, non-empty items, or an error for no value or no item |
| EnvConfig.EnvConfig.GetNodeEndpoints | src/common/env/EnvConfig.cpp:145-183 | the endpoints in order, or the first error met |
| EnvConfig.PaddedListRoundTrip | src/common/env/EnvConfig.cpp:98-115 | a non-empty list of trimmed, non-empty, comma-free items comes back in order with any blanks around the commas |
| EnvConfig.ListRoundTrip | src/common/env/EnvConfig.cpp:93-122 | joined by commas, exactly the non-empty lists of such items come back |
| EnvConfig.BlankItemsDropped | src/common/env/EnvConfig.cpp:98-115 | blank and empty items are dropped wherever they stand |
| EnvConfig.EndpointsRoundTrip | src/common/env/EnvConfig.cpp:145-183 | printed as host:port and joined, a list of endpoints comes back in order if and only if it is not empty, hosts are clean and free of colons, and ports are 1 to 65535 |
| EnvConfig.EndpointErrors | src/common/env/EnvConfig.cpp:150-179 | no colon, a blank host, and a port of 0 or above 65535 are each their own error |
| EnvConfig.NoColonIsError | src/common/env/EnvConfig.cpp:150-156 | a list with an item without colon is an error |
| EnvConfig.EndpointWithTail | src/common/env/EnvConfig.cpp:152-176 | the first colon ends the host, and what stands behind the digits of the port is ignored |
| EnvConfig.StoulBack | src/common/env/EnvConfig.cpp:170-175 | the decimal form of every unsigned 64-bit number is read back by stoul |
| EnvConfig.StoulReads | src/common/env/EnvConfig.cpp:170-175 | white space, a sign, digits and anything behind: the number, its negation modulo 2^64, or an error beyond 2^64 - 1 |
| EnvConfig.StoulThrows | src/common/env/EnvConfig.cpp:170-175 | without a digit behind white space and a sign it is an error |
| EnvConfig.LineStores | src/common/env/EnvConfig.cpp:213-247 | key = value, with blanks at all the places allowed, sets exactly this key to exactly this value |
| EnvConfig.LinesWithoutEffect | src/common/env/EnvConfig.cpp:213-247 | blank lines and comments are accepted, lines without = or key refused, and none of them changes a setting |
| EnvConfig.LineToEndpoints | src/common/env/EnvConfig.cpp:145-247 | from a printed line of the file to the same list of endpoints, with all other settings untouched |
| Strings.TrimPadded | src/common/env/EnvConfig.cpp:104-110 | trimming cuts off exactly the padding |

## Left out

- ThreadSafeQueue.ThreadSafeQueue.constructor: a maximal size of 0, for which the original throws, is excluded by a precondition; the monitor theorems hold for every size.
- ThreadPool.ThreadPool.constructor: 0 threads, for which the original throws, is excluded by a precondition.
- TlsConnection.ReadExactlyCompletes: a peer that makes the library ask for one more wait for ever is not a finite script; nothing is said about liveness under it.
- MessageStream.ClientSendMessage: a header that announces more bytes than the body has would be read past its end; all messages of the program come from constructors that agree.
- NodeTcpServer.NodeAtMostOnce: handler replies are below 2^31 bytes, the limit of protobuf serialization, and so are request bodies in Correlation.
- FireblocksKeyGenerator.DeserializeDecommitment: a copy beyond the data is undefined in the original and is the result None here; sizeof of the library structs are the constants 32, 32, 65 and 32 of its comments.
- CoordinatorHttpsServer.StopTerminates: handlers may be dispatched to any thread for any session, which is more than the original allows. The router is taken to return or to throw a std::exception, which is all that ProcessRequest catches (src/coordinator/network/wallet_server/src/HttpsSession.cpp:358-376); after any other throw the promise is not set, and where the OnRead that made it is itself blocked in future.get() its own reference keeps the promise alive, so that this thread never returns.
- HttpsSession.KeepAliveBound: requests_handled_ is a plain int (src/coordinator/network/wallet_server/include/HttpsSession.hpp:159) that the writer reads while another thread may increment it, a data race in the original; counting and reading it are single steps here.
- Correlation.StepKeepsInv: the node's jobs carry a flag that says whether they were begun; NodeWorkers shows that the worker pool begins a job only when it was not, and the pool's queue and threads are not repeated in the joint model of client and node.
- OpenSSL, Boost.Asio and Beast, sockets, clocks, logging and statistics: parameters of the model, or left out.
- The counters of handled requests wrap at 2^31 in the original and do not here; the response bound is reached long before.
- When a send or receive loop ends after a failure, callers wait for their timeout; the model allows the loops to go on, which only adds runs.
- Joins with a timeout, initialization, TLS handshakes, access control, broadcasts and registries: no part in the properties.
- Protobuf bodies are opaque bytes; the conversion of a response into a protobuf object is not modelled.
- The cryptographic service, the signers, the key store and the wallet handlers: external, or constant stubs.
- GetUInt16Array, GetUInt32, GetBool and the loading of files in EnvConfig: easy members beside the list and endpoint parsers.
