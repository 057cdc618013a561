# Verified model of the VPN session layer

This project models, in Dafny 4.11, the session layer of the VPN: the token
bucket and connection limiter, the threaded server handler, the framing over
TCP, the mutual handshake, the reconnecting tunnel client and the CONNECT relay.
It proves what these promise over all inputs, all runs and all interleavings.
`dafny verify dfyconfig.toml` checks everything.

## How the system is modelled

* **TokenBucket.dfy, RateLimiter.dfy** (server/rate_limit.py). The bucket is a
  class with the two fields the source overwrites and a ghost log of everything
  it ever granted; each verdict is specified by a sliding-window rule over that
  log, not by the counter. Floats are reals and every clock reading is a
  parameter. The limiter is a class whose tables are maps that its methods
  reassign and whose buckets are objects that `check_rate` shares.
* **Bytes.dfy, Framing.dfy, FrameStream.dfy** (crypto/protocol.py). Byte strings
  with real big-endian arithmetic, a printer and a parser; the socket is an
  object whose `recv` returns chunks of any size a script chooses. HMAC (section
  2 of RFC 2104) and AES-GCM (sections 5.1 and 5.2 of RFC 5116) are arbitrary
  functions, with a 32-byte digest, a 16-byte expansion and decryption inverting
  encryption as the only assumptions. Nonces drawn at random are parameters.
* **Handler.dfy** (server/server_main.py:72-184). One connection as a program
  counter; a history of events is legal if the code can produce it. **Server.dfy**
  runs any number of such threads over one shared limiter: each locked method is
  one step, `check_rate` is two, any call may raise. **Accounting.dfy**,
  **RateBound.dfy** and **ServerProperties.dfy** prove properties of all runs.
  **HandleClient.dfy** is `handle_client` as imperative code over the limiter
  object; every call it makes is one step of the machine by this thread.
* **Handshake.dfy** (auth/handshake.py) has the steps of both sides and the two
  functions as methods over a channel. **Agreement.dfy** runs both sides over
  FIFO queues with failures anywhere; **Correspondence.dfy** runs many sessions
  against a network that chooses every message. Signatures (section 8.1 of
  RFC 8017), OAEP (section 7.1 of RFC 8017) and HKDF (sections 2.2 and 2.3 of
  RFC 5869) are symbolic.
* **Tunnel.dfy** (client/tunnel_client.py) is the client as a class over a
  network in which every step may fail and the server answers in order, at most
  once per request.
* **Relay.dfy** (server/forwarder.py:116-193) has the relay's read loop, its
  session map and the bytes taken from each target socket.

## Where the code differs from what is said about it

* A grant is not decided by the windows of earlier events alone: a request above
  the capacity is refused by a full bucket however long it was idle
  (`Bucket.EmptyWindowMatters`). The exact rule adds the empty window, that is,
  the request itself must not exceed the capacity (`Bucket.TakeRefinesLog`).
* The docstring of `recv_frame` promises `ValueError` for a corrupt frame. A bad
  GCM tag raises `InvalidTag` instead, which the serve loop does not catch; the
  connection ends through the inner and outer handlers. The model follows the
  code: both lead to cleanup.
* Received nonce lengths are not checked. A completed server session has its
  client session exactly when the client nonce it was sent is 16 bytes long
  (`Correspondence.ServerCompletionCorresponds`); with other lengths and an
  unlucky coincidence of nonces it can lack one
  (`Correspondence.LengthConditionIsNeeded`).
* `TunnelClient` is described as thread-safe. The pairing of answers is proved
  for one caller; the lock is released between a failed attempt and the reconnect.

## Model

| member | source | states |
|---|---|---|
| Bucket.TakeRefinesLog | server/rate_limit.py:33-43 | one `consume` is granted exactly when the sliding-window rule over the full log of grants admits it, and the counter goes on tracking that log |
| Bucket.AdmitsMeans | server/rate_limit.py:33-43 | the rule in numbers: the tokens granted since each line of the log, and the request, are at most capacity + rate * time, and the request alone at most the capacity |
| Bucket.RunMatchesLog | server/rate_limit.py:21-43 | over every run each request is granted exactly when the rule over the log before it admits it, and the log records exactly what was granted |
| Bucket.EmptyWindowMatters | server/rate_limit.py:38-43 | a concrete refusal that all windows of earlier events would allow |
| Bucket.WindowBound | server/rate_limit.py:33-43 | in any window of real time a lawful log holds at most capacity + rate * length |
| Bucket.RunWindowBound | server/rate_limit.py:21-43 | the same for every run of the bucket on a non-decreasing clock |
| Bucket.GreedyIsOptimal | server/rate_limit.py:33-43 | in every prefix of unit requests the bucket grants at least as many as any schedule that keeps the sliding-window bound on the same arrivals |
| Bucket.GreedyKeepsBound | server/rate_limit.py:33-43 | the bucket's own schedule keeps that bound, so the optimum is attained |
| Bucket.ModestSenderNeverRefused | server/rate_limit.py:33-43 | a sender whose requests keep the bound in every window is granted all of them |
| Bucket.TokenBucket.constructor | server/rate_limit.py:21-31 | a new bucket is full and its log holds only its construction |
| Bucket.TokenBucket.Consume | server/rate_limit.py:33-43 | the verdict is the rule over the whole ghost log, which grows by exactly the grant |
| Limiter.TryAddKeepsConsistent | server/rate_limit.py:90-119 | admission keeps entries positive and the total equal to their sum, and stays within both caps |
| Limiter.RemoveKeepsConsistent | server/rate_limit.py:121-132 | so does removal; with an entry present the clamp at zero does not act, and no other IP's count changes |
| Limiter.RemoveUndoesTryAdd | server/rate_limit.py:90-132 | removing restores the counts and total from before the admission |
| Limiter.RemovesCommute | server/rate_limit.py:121-132 | two cleanups leave the same tables in either order |
| Limiter.RateLimiter.constructor | server/rate_limit.py:49-67 | a new limiter is empty |
| Limiter.RateLimiter.LookupBucket | server/rate_limit.py:77-80 | an unknown IP gets a full bucket of `burst` tokens that refills at `rps`, a known one its own; no other bucket changes |
| Limiter.RateLimiter.CheckRate | server/rate_limit.py:72-85 | the verdict is the window rule with rate `rps` and capacity `burst` over the IP's whole history, whatever connections came and went; no table and no other IP's history changes |
| Limiter.RateLimiter.TryAddConnection | server/rate_limit.py:90-119 | admitted exactly if both counts are below their caps; the new tables |
| Limiter.RateLimiter.RemoveConnection | server/rate_limit.py:121-132 | new tables of a removal |
| Limiter.RateLimiter.TouchIp | server/rate_limit.py:137-140 | only the IP's activity time changes |
| Limiter.RateLimiter.CheckIdle | server/rate_limit.py:142-148 | idle exactly when no activity is known or it is older than the timeout |
| Bytes.UnpackPack | crypto/protocol.py:131 | the 4-byte length reads back as it was written |
| Bytes.PackUnpack | crypto/protocol.py:160 | every 4 bytes are the encoding of the length read from them |
| Framing.TypeOf | crypto/protocol.py:53-63 | a byte is a message type exactly when it is some type's code, and then that type's |
| Framing.ScanPrint | crypto/protocol.py:121-185 | a printed frame is scanned back whatever bytes follow it |
| Framing.PrintScan | crypto/protocol.py:156-185 | rebuilding a frame from the scanned fields gives the identical bytes |
| Framing.ScanAcceptsExactlyPrinted | crypto/protocol.py:121-185 | the framing stage accepts exactly the printed frames with a known type and a length from 61 bytes to 16 MiB, and reads exactly one |
| Framing.RoundTrip | crypto/protocol.py:89-197 | what `send_frame` wrote under some keys `recv_frame` returns under the same keys, reading exactly those bytes |
| Framing.MacKeyInUse | crypto/protocol.py:110 | the caller's HMAC key is used, and 32 zero bytes only if it gave none or an empty one |
| Framing.WireLayout | crypto/protocol.py:105-131 | every byte of a sent frame: big-endian length, type code, session id, nonce with the sealed payload or zeros with the clear one, and the HMAC under the key in use |
| Framing.EncodeSucceeds | crypto/protocol.py:105-129 | exactly which messages can be sent, and the error of the others |
| Framing.ReceiveAcceptsExactly | crypto/protocol.py:156-197 | a message is returned exactly if the stream starts with the bytes of a frame that carries it under these keys |
| Framing.Rejections | crypto/protocol.py:156-191 | how any other stream fails, and how many bytes are gone then |
| Framing.CutIsClosed | crypto/protocol.py:69-83 | a stream that ends inside a frame gives `ConnectionError` under any key |
| Framing.PrefixFree | crypto/protocol.py:121-131 | no frame is a proper prefix of another, even under different MAC keys |
| Framing.UniqueSplit | crypto/protocol.py:121-185 | a concatenation of frames splits into frames in one way only |
| Framing.DrainIsQueue | crypto/protocol.py:89-197 | reading any delivered prefix gives exactly the messages whose frames arrived whole, then `ConnectionError` if it was cut, and leaves no byte |
| FrameStream.Socket.RecvExact | crypto/protocol.py:69-83 | exactly n bytes in order whatever the chunks; fewer only if the peer closed or a read timed out |
| FrameStream.Socket.SendFrame | crypto/protocol.py:89-132 | exactly one encoded frame goes out, or an error and nothing |
| FrameStream.Socket.RecvFrame | crypto/protocol.py:139-197 | whatever the chunks, the result and the bytes read are those of the byte string |
| FrameStream.Socket.ReceiveAll | crypto/protocol.py:139-197 | repeated `recv_frame` is the queue of the byte string, and a prefix of it if a read times out |
| FrameStream.DeliverAndReceive | crypto/protocol.py:69-197 | for every list of sends, every delivered prefix and every chunking the messages received are a prefix of those sent, and all of them once everything is delivered |
| Handler.ForwardIsGated | server/server_main.py:84-155 | in every history a forward comes after whitelist, admission and handshake, and directly after its genuine DATA_REQUEST frame, touch and granted rate check |
| Handler.UndoneExactlyOnce | server/server_main.py:83-184 | on every exit path an admission is undone exactly once, and without admission nothing is undone |
| Handler.NothingAfterFinal | server/server_main.py:117-184 | after the first frame error, idle break or exception only the cleanup follows |
| Handler.EventOrder | server/server_main.py:84-184 | what may follow each event: the cleanup comes only after a frame error, idle break or exception, and after every reply or frame of another type the loop goes on |
| Handler.EventCauses | server/server_main.py:111-172 | what each event follows: a response the forward whose result it carries, that its grant, an ERROR its refusal |
| Handler.OneReplyEach | server/server_main.py:111-172 | each accepted DATA_REQUEST gets in order exactly one reply, ERROR if limited and otherwise the forwarder's result; only the last may lack one; other frames get none |
| Server.PerformIsEnabled | server/server_main.py:84-184 | every atomic action of a thread is one the handler's control flow allows |
| Server.ReceivedIsEnabled | crypto/protocol.py:156-197 | a frame accepted off a stream is, by itself, a genuine frame under the session's keys |
| Server.FrameIsReceived | server/server_main.py:117-133 | a good frame is never missed: a DATA_REQUEST under the session's keys is accepted and any other type skipped, whatever bytes follow |
| Server.RunThreaded | server/server_main.py:72-184 | in every run of every interleaving each thread's history is one of the handler |
| Accounting.RunAccounted | server/rate_limit.py:90-132 | in every reachable state each IP's entry counts its threads between admission and cleanup, entries are positive, the total is their sum and the number of all such threads, and no cap is exceeded |
| Accounting.AdmissionIsExact | server/rate_limit.py:96-119 | in every run a thread is admitted exactly if fewer threads than each cap hold a connection of its IP and at all |
| Accounting.CleanupIsCounted | server/rate_limit.py:121-132 | a thread that cleans up is counted, so the clamp at zero never changes a value |
| Accounting.AllEndedLeavesNothing | server/server_main.py:174-175 | when all threads have ended the map is empty and the total 0 |
| Accounting.ThreadsBalance | server/server_main.py:83-184 | in every run every thread's admission is undone exactly once when it has ended |
| RateBound.RunRated | server/rate_limit.py:72-85 | in every run each IP's bucket tracks everything ever granted to the IP, and between the two halves of `check_rate` a thread holds that very bucket |
| RateBound.RunConserved | server/server_main.py:137-155 | in every run and window grants are exactly the forwards made plus those about to be made |
| RateBound.ServerRateBound | server/server_main.py:111-155 | in any real window the forwarded requests of one IP, by time of grant, number at most `burst` + `rps` * length |
| RateBound.VerdictIsTheRule | server/rate_limit.py:72-85 | and nobody is limited without reason: in every run a rate check is passed exactly if the window rule over the IP's whole history admits it |
| RateBound.BucketsOutliveConnections | server/rate_limit.py:77-80 | no step replaces or refills an existing bucket, or drops part of its log |
| ServerProperties.RunActivity | server/rate_limit.py:112-148 | in every run an admitted thread's IP has an activity time, which is its latest admission or accepted request |
| ServerProperties.IdleBreakIsSound | server/server_main.py:111-135 | a thread takes the idle break only if its IP had no such event within the timeout, and goes on only if it had one |
| ServerProperties.AdmittedThreadIsTracked | server/rate_limit.py:142-148 | the missing-entry branch of `is_idle` is never taken by an admitted thread |
| ServerProperties.ForwardsPassAllGates | server/server_main.py:84-155 | in every run each forward belongs to a whitelisted IP counted within both caps, on a connection past its handshake, for a frame past MAC, decryption, type and rate check |
| ServerProperties.RepliesAreDisciplined | server/server_main.py:111-172 | the reply discipline and the stop after the first error hold for every connection of every run |
| ServerProperties.NewConnection | server/server_main.py:72-81 | every accepted connection gets a thread with nothing done yet |
| ServerProperties.ReturningCall | server/server_main.py:84-184 | in every run each call that returns has the one effect the handler gives it after the thread's last event: admitted, handshaken, received, granted, forwarded and answered, each exactly when the limits and the frame allow it |
| ServerProperties.ThrowingCall | server/server_main.py:103-184 | a call that raises leads to the cleanup, a failing receive or forward to its own event |
| HandleClient.Thread.CheckRate | server/rate_limit.py:72-85 | lookup and consume on the objects are the two steps of the machine |
| HandleClient.Thread.Process | server/server_main.py:134-172 | one accepted request leads back to the loop head exactly if its reply was sent, and to the cleanup exactly after an exception |
| HandleClient.Thread.Serve | server/server_main.py:96-172 | handshake and serve loop end, by steps of this thread, at the cleanup, and only with a frame error, an idle break or an exception |
| HandleClient.Thread.Run | server/server_main.py:72-184 | the handler always ends, by machine steps that leave exactly its trace |
| HandleClient.HandleConnection | server/server_main.py:72-184 | run on a server with any past, the handler's calls end as its environment's script says, one step each; its events are one thread of a longer run: disciplined replies, balanced admission, and a limiter that counts exactly the remaining holders |
| Handshake.ClientHandshake | auth/handshake.py:90-175 | a session exactly if ServerHello is within 300 s, signed and challenged right and ServerDone opens, with the two messages and the derived keys given; each refusal sends nothing more |
| Handshake.ServerHandshake | auth/handshake.py:181-271 | a session exactly if ClientHello is within 300 s and ClientResponse answers and signs right, with the two messages and the derived keys given; a stale hello or bad response gets exactly an ERROR frame |
| Agreement.CompletedEndsAgree | auth/handshake.py:104-271 | on a faithful channel, whatever fails: a complete client implies ServerDone was sent, and two completed ends hold the same id and keys |
| Agreement.CompletedEndsCanTalk | auth/handshake.py:173-175 | what one completed end frames under its keys the other end receives; refused exactly if the session id is not 16 bytes or the payload exceeds 16 MiB less 77 bytes |
| Agreement.ReadingDecides | auth/handshake.py:104-271 | a side that reads a message goes on or gives up for good, with the server's notices where the code sends them |
| Agreement.StageStep | auth/handshake.py:104-271 | a clean move of the side whose turn it is goes to the next stage, any other does nothing |
| Agreement.CleanRunsComplete | auth/handshake.py:104-271 | with matching keys, clocks in the window and no failure every schedule passes the same stages |
| Agreement.SomeoneCanMove | auth/handshake.py:104-271 | until both ends are complete some side can move, and at the end exactly the four messages were sent in order |
| Correspondence.RunTraced | auth/handshake.py:105-149 | on any network every signature belongs to a session that made it, and every session that went on had verified one |
| Correspondence.ServerCompletionCorresponds | auth/handshake.py:211-271 | a completed server session has a client session that drew its client nonce, took its server nonce and verified a server signature over both, exactly when the client nonce is 16 bytes |
| Correspondence.CorrespondenceIsInjective | auth/handshake.py:211-271 | distinct server sessions have distinct client sessions, and the signature verified is that very server session's |
| Correspondence.ClientProgressCorresponds | auth/handshake.py:119-149 | a client session that answered ServerHello has its server session exactly when the server nonce it took is 16 bytes |
| Correspondence.EveryMessageDecides | auth/handshake.py:115-271 | on any network one message decides: a session goes on, and signs, exactly if all checks pass, and otherwise ends for good |
| Correspondence.DeliveryCompletes | auth/handshake.py:104-271 | from any possible run, delivering the messages of a new pair of sessions is possible and completes both with the same session |
| Correspondence.LengthConditionIsNeeded | auth/handshake.py:201 | a concrete possible run with a 17-byte client nonce and no matching client session |
| Tunnel.NextAnswerIsLast | client/tunnel_client.py:146-159 | with nothing open before a request, a FIFO server's next answer is the answer to it |
| Tunnel.PairedAnswer | client/tunnel_client.py:146-167 | reading it closes the request again and pairs its body with the request's data and call |
| Tunnel.FirstAttemptAnswers | client/tunnel_client.py:119-121 | on a working network the first attempt returns the server's answer, with one frame and a connect only if there was no connection |
| Tunnel.LaterAttemptAnswers | client/tunnel_client.py:118-135 | however the first attempts fail, the first one that finds the network working ends the call with the answer |
| Tunnel.SecondAttemptAnswers | client/tunnel_client.py:118-135 | written out for a broken send, a reconnect and a second attempt |
| Tunnel.AttemptsBounds | client/tunnel_client.py:118-139 | a call gives up only after all its attempts; frames and connects are bounded by them |
| Tunnel.TunnelClient.CloseSocket | client/tunnel_client.py:95-102 | disconnected and without socket |
| Tunnel.TunnelClient.DoConnect | client/tunnel_client.py:71-88 | on a new connection without requests, or disconnected; never on the old one |
| Tunnel.TunnelClient.DoRequest | client/tunnel_client.py:141-167 | a returned value answers the frame just sent, and nothing is left open; on a working network it is returned; exact effect for every script of the network |
| Tunnel.TunnelClient.SendRequest | client/tunnel_client.py:111-139 | an answer exactly when one of its attempts gets one, at once on a working network; a returned value is the server's answer to a frame with this data sent by this call; afterwards nothing is open; at most max_retries frames, 2 * max_retries connects, and the exact total sleep |
| Tunnel.SendAll | client/tunnel_client.py:111-167 | over any sequence of calls no call gets an answer of another |
| Relay.ReadLoopConserves | server/forwarder.py:154-176 | the loop returns exactly the bytes it took, which are the next bytes of the stream |
| Relay.ReadLoopReads | server/forwarder.py:154-183 | what one call reads, told from the target's behaviour: data up to the first that does not fill its chunks, the close, a timeout or an error; the close is reported exactly if it came first |
| Relay.StepConserves | server/forwarder.py:141-193 | one request adds to the bytes taken from each target exactly the body of a successful relay |
| Relay.RelayConserves | server/forwarder.py:141-193 | over any sequence of requests the bodies of successful relays for a target are exactly the bytes received from it, in order and without loss |
| Relay.StepTakesInOrder | server/forwarder.py:154-176 | on every socket the bytes taken stay a prefix of those the target sends |
| Relay.SessionEnds | server/forwarder.py:159-193 | a session ends exactly at the target's close or a failed send, and no other session is touched |
| Relay.TargetSocket.ReadAll | server/forwarder.py:154-176 | the loop as written returns what the read loop's definition says |
| Relay.Sessions.HandleConnect | server/forwarder.py:116-138 | the connect step on the objects: on success the target maps to a new socket, on failure nothing changes |
| Relay.Sessions.HandleRelay | server/forwarder.py:141-193 | the relay step on the objects: body, closing flag, socket and session map in each case |
| Relay.HandleAll | server/forwarder.py:116-193 | any sequence of calls of the two handlers: for each target the bodies of successful relays are exactly the bytes received from it |

## Left out

- SendRequest: stated for one caller at a time; with several callers on one tunnel the lock is released between a failed attempt and the reconnect, and the code gives no pairing.
- SendFrame: a `sendall` that fails midway is not an outcome here; the peer's view of it is a wire that was cut, which `DeliverAndReceive` covers for every prefix.
- HandleRelay: one handler at a time per target; two handlers reading one target socket would share its bytes in an order the code does not fix.
- CompletedEndsAgree: stated for a faithful channel; ServerDone is not signed, so nothing is proved about a client's keys on a hostile network.
- ServerRateBound: floats are reals, so rounding in the counter is not modelled.
- CheckRate: `remove_connection`, `touch`, `is_idle` and `check_rate` may raise before they take effect, not in the middle of their locked bodies.
- Exactly-once execution of a request across retries: the code does not provide it.
- The internals of AES-GCM, SHA-256, HKDF and RSA, key files and random generation: library calls.
- JSON and hex encoding of requests and handshake payloads: an abstract encoding into bodies, with malformed payloads as one case.
- `AccessController`: a predicate on IPs.
- HTTP forwarding through the `requests` library, the port parsing of `_handle_connect`, error page texts and the browser-facing proxy.
- The length limit of the AES-GCM library (2^31 - 1 bytes), which lies above the frame limit that refuses the same payload.
- The legacy Fernet programs, command-line and configuration loading, logging, scripts and demo material.
- HandleRelay: the bytes that `sendall` passes on to the target are not recorded, only whether it fails; a send that fails midway ends the session.
- The limiter's statistics properties: plain reads of fields.
