# BlackEdgeXCom connection lifecycle in Dafny

This project models the connection-lifecycle core of BlackEdgeXCom, a
dealer/router messaging library built on NetMQ. A `BaseAsyncServer` owns a
router socket and a registry of client identities. A `BaseAsyncClient` owns a
dealer socket, two scheduler timers and a small set of flags. The two talk
through a handshake protocol of empty-led control messages (`"HS"` handshakes
with an optional login/logout action and snapshot qualifier, `"HB"`
heartbeats).

The model keeps the library's own structure:

- `Handshake` (HandshakeHelper): the constant control messages and the
  classifiers, as pure functions over frame sequences.
- `Bytes` (ByteArrayExtensions): the null-aware byte comparison every
  classifier uses, plus the network-order encoding of the numeric comment
  frames.
- `Framing` (CommunicationExtensions): the `[identity, empty, payload…]`
  envelope, the single-attempt sends, the endpoint text and the affinity
  option.
- `DealerReceive` (DealerSocketExtensions): reading one multipart message off
  a queue of `(frame, has-more)` pairs.
- `ServerSpec` and `Server` (BaseAsyncServer): the registry engine. It is a
  pure view `ServerView` (registry, send log, callback log) with one
  transition function per operation. The class `Server.BaseAsyncServer` is
  proved to move its fields exactly as those functions say, and the lemmas
  about the functions state what the source promises.
- `ClientSpec` and `Client` (BaseAsyncClient): the client engine, in the same
  way. `ClientState` is the flag/timer/event state, and `Route` and
  `ReceiveBatch` specify the receive loop.
- `Servicer` (CommunicationServicer): the guid-keyed registry of periodic
  timers.
- `Atomic` (AtomicBool, AtomicCountXP): the sequential effect of each
  interlocked operation, with 32-bit wrap-around written out.
- `Collections` (IEnumerableExtensions): the one-item sequence, null-safe
  membership, multiset equality and the only-element selectors.

The NetMQ transport is replaced by `Transport`:

- A `Poller` is a set of attached items with running/disposed flags.
- A `NetTimer` has an enabled flag, a count of countdown restarts, an
  interval and a subscribed flag. Its Enable setter restarts the countdown
  only when it turns a disabled timer on; `EnableAndReset` always restarts it.
- A `RouterSocket` has a send-outcome oracle (`Sent`, `Refused`, `Threw`),
  a log of every attempted message and a queue of inbound messages.
- A `DealerSocket` has a queue of inbound `(frame, has-more)` pairs and a log
  of sent messages.

Callbacks the engines raise (`NewClientIdentityConnected`,
`OnClientDisconnected`, `ConnectionEstablished`, the payload handlers, …)
are appended to an event log in the order they are raised.

## Model

| member | source | states |
|---|---|---|
| Handshake.FrameEquals | BlackEdgeXCom/HandshakeHelper.cs:91 | comparing a (never null) message frame with a marker array is plain byte equality |
| Handshake.IsHandshakeMessage | BlackEdgeXCom/HandshakeHelper.cs:89-91 | a handshake is exactly: at least offset+2 frames, an empty frame at the offset, `"HS"` right after it |
| Handshake.IsHandshakeFrame | BlackEdgeXCom/HandshakeHelper.cs:93-94 | the single-frame test is true exactly for the frame `"HS"` |
| Handshake.GetHandshakeType | BlackEdgeXCom/HandshakeHelper.cs:96-118 | None iff fewer than offset+2 frames; with offset+4 or more, LoginWithSnapshot iff frame offset+3 is `"SN"`, otherwise LoginWithoutSnapshot; with exactly offset+3, Logout iff frame offset+2 is `"OUT"`, otherwise LoginWithSnapshot; with exactly offset+2, ToggleConnection |
| Handshake.TryGetHandshakeMessage | BlackEdgeXCom/HandshakeHelper.cs:120-142 | a message exists for every type except None |
| Handshake.IsHeartbeatMessage | BlackEdgeXCom/HandshakeHelper.cs:144-146 | a heartbeat is exactly offset+2 frames, an empty frame at the offset, `"HB"` right after it |
| Handshake.IsHeartbeatFrame | BlackEdgeXCom/HandshakeHelper.cs:148-149 | the single-frame test is true exactly for the frame `"HB"` |
| Handshake.HandshakeRoundTrip | BlackEdgeXCom/HandshakeHelper.cs:56-136 | for every type but None the message exists and classifies back to the same type, at offset 0 and at offset 1 behind any identity frame |
| Handshake.NoMessageForNone | BlackEdgeXCom/HandshakeHelper.cs:137-141 | None yields no message (the source's false and null) |
| Handshake.ProducedMessagesAreHandshakes | BlackEdgeXCom/HandshakeHelper.cs:120-146 | every produced message passes the handshake test and fails the heartbeat test, at offset 0 and at offset 1 behind any identity |
| Handshake.ActionFrameIgnoredWhenQualified | BlackEdgeXCom/HandshakeHelper.cs:98-104 | with offset+4 frames or more, replacing frame offset+2 never changes the type |
| Handshake.NonEmptyLeadFrameIsNeverControl | BlackEdgeXCom/HandshakeHelper.cs:89-91 | a non-empty frame at the offset fails both the handshake and the heartbeat test |
| Handshake.HeartbeatExactHandshakeOpenEnded | BlackEdgeXCom/HandshakeHelper.cs:144-146 | the marker pair followed by any trailing frames is a handshake; it is a heartbeat iff nothing trails |
| Handshake.FrameTestsAreExclusive | BlackEdgeXCom/HandshakeHelper.cs:93-94 | the single-frame tests are byte equality with `"HS"` and `"HB"`, so no frame passes both |
| Bytes.AsSpan | BlackEdgeXCom/ByteArrayExtensions.cs:11-12 | a null array converts to the default span and any other array to a span over its bytes |
| Bytes.SpanSequenceEqual | BlackEdgeXCom/ByteArrayExtensions.cs:14-20 | a default (null) first span is equal exactly to a default second span; any other first span is equal iff its bytes are what the second one lets one read |
| Bytes.ByteArraySequenceEqual | BlackEdgeXCom/ByteArrayExtensions.cs:11-12 | a null first array equals exactly a null second array; two non-null arrays are equal iff their bytes are; a non-null first array equals a null second one iff it is empty |
| Bytes.NullEqualsOnlyNull | BlackEdgeXCom/ByteArrayExtensions.cs:16-17 | a null first argument equals exactly a null second argument |
| Bytes.NonNullIsContentEquality | BlackEdgeXCom/ByteArrayExtensions.cs:19 | a non-null first argument: equal length and equal bytes at every index |
| Bytes.NonNullArraysCompareByContent | BlackEdgeXCom/ByteArrayExtensions.cs:19 | on two non-null arrays the comparison is sequence equality |
| Bytes.ByteArrayEqualReflexive | BlackEdgeXCom/ByteArrayExtensions.cs:19 | every non-null array equals itself |
| Bytes.ByteArrayEqualSymmetric | BlackEdgeXCom/ByteArrayExtensions.cs:19 | on non-null arrays the argument order does not matter |
| Bytes.ArrayOverloadAgreesWithSpan | BlackEdgeXCom/ByteArrayExtensions.cs:11-12 | the byte[] overload answers as the span overload on the converted arguments |
| Bytes.EmptyAndNullCompareOneWay | BlackEdgeXCom/ByteArrayExtensions.cs:14-20 | an empty array equals null, but null does not equal an empty array |
| Bytes.NetworkOrderBytes | BlackEdgeXCom/BaseAsyncServer.cs:248 | the encoding of a comment has exactly the requested width (8 bytes for a long, 4 for an int) |
| Bytes.NetworkOrderRoundTrip | BlackEdgeXCom/BaseAsyncServer.cs:248 | reading the big-endian bytes back gives the value modulo 256^width |
| Framing.GetMessageWithIdentityHeader | BlackEdgeXCom/CommunicationExtensions.cs:9-15 | the header is exactly `[identity, empty]`, whatever the expected frame count |
| Framing.IdentityMessage | BlackEdgeXCom/CommunicationExtensions.cs:24-32 | the envelope has the payload's length plus 2 frames: identity, empty, then every payload frame at its own position |
| Framing.BuildIdentityMessage | BlackEdgeXCom/CommunicationExtensions.cs:26-29 | the frame-by-frame loop builds exactly the envelope; the capacity hint changes nothing |
| Framing.TrySendMessagesToIdentity | BlackEdgeXCom/CommunicationExtensions.cs:24-32 | one attempt with the envelope; the result is the transport's, with no retry |
| Framing.TrySendMessageToIdentity | BlackEdgeXCom/CommunicationExtensions.cs:17-22 | one attempt with exactly `[identity, empty, payload]`; the result is the transport's |
| Framing.EnvelopeDeliversControlToClient | BlackEdgeXCom/BaseAsyncServer.cs:217 | behind the identity the dealer reads `[empty] + payload`, so the `"HS"` ack arrives as the client-side toggle handshake and `"HB"` as the client-side heartbeat |
| Framing.GetRemoteEndpointStringSafe | BlackEdgeXCom/CommunicationExtensions.cs:48-59 | the endpoint text when it can be read and is not null, `"unknown"` otherwise |
| Framing.SetAffinityIfRequired | BlackEdgeXCom/CommunicationExtensions.cs:61-71 | affinity becomes 1 iff the thread-pool size is not 1; otherwise the options are unchanged |
| DealerReceive.EndFrom | BlackEdgeXCom/DealerSocketExtensions.cs:21-26 | the end of the message holding a frame lies after it, within the queue, on a frame without the more-flag |
| DealerReceive.MessageEnd | BlackEdgeXCom/DealerSocketExtensions.cs:21-26 | the head message has between 1 and all queued frames and ends without the more-flag |
| DealerReceive.EndFromIsFirstLast | BlackEdgeXCom/DealerSocketExtensions.cs:21-26 | every frame before the end found carries the more-flag |
| DealerReceive.MessageEndIsFirstLast | BlackEdgeXCom/DealerSocketExtensions.cs:21-26 | the head message ends at its first frame without the more-flag |
| DealerReceive.Poll | BlackEdgeXCom/DealerSocketExtensions.cs:13-32 | a poll leaves the queue well formed (never in the middle of a message) |
| DealerReceive.PollTakesOneMessage | BlackEdgeXCom/DealerSocketExtensions.cs:13-32 | an empty queue gives false, count 0 and consumes nothing; otherwise exactly the head message is consumed and the rest is untouched; the result is true iff that message has two or more frames, and then the count is its frame count and the message its last frame; on false the count is 0 |
| DealerReceive.PollCountsAtLeastTwo | BlackEdgeXCom/DealerSocketExtensions.cs:17-28 | a successful poll reports at least two frames |
| DealerReceive.TryGetNextMessage | BlackEdgeXCom/DealerSocketExtensions.cs:13-32 | the reading loop returns exactly what `Poll` says and leaves exactly its remaining frames on the socket |
| ServerSpec.FailedIdentities | BlackEdgeXCom/BaseAsyncServer.cs:298-304 | the identities a broadcast evicts are registered ones |
| ServerSpec.RemoveClient | BlackEdgeXCom/BaseAsyncServer.cs:221-225 | the identity is absent afterwards and no other identity is removed; nothing is sent; a callback is appended |
| ServerSpec.SendToClient | BlackEdgeXCom/BaseAsyncServer.cs:275-296 | exactly one envelope `[identity, empty, payload…]` is attempted; other identities keep their membership; the identity stays registered iff it was and the send was delivered |
| ServerSpec.AddClient | BlackEdgeXCom/BaseAsyncServer.cs:214-219 | only the new identity's membership changes, and it is registered afterwards iff its ack was delivered; exactly one send is attempted; the last callback is NewClientIdentityConnected with the snapshot flag |
| ServerSpec.Toggle | BlackEdgeXCom/BaseAsyncServer.cs:230-237 | only that identity's membership changes: a registered identity is removed with nothing sent, an unregistered one is registered iff its ack was delivered; the logs only grow |
| ServerSpec.HandshakeStep | BlackEdgeXCom/BaseAsyncServer.cs:184-212 | only the sender's (first frame's) membership can change; at most one send is attempted; the logs only grow |
| ServerSpec.ReceiveStep | BlackEdgeXCom/BaseAsyncServer.cs:155-160 | a message that is not a handshake changes neither the registry nor the send log; any message attempts at most one send; the logs only grow |
| ServerSpec.ReceiveAll | BlackEdgeXCom/BaseAsyncServer.cs:150-164 | a receive turn attempts at most one send per message taken and only appends to the send and callback logs |
| ServerSpec.Broadcast | BlackEdgeXCom/BaseAsyncServer.cs:360-367 | a broadcast never adds an identity, attempts exactly one envelope per identity tried, and raises at most one callback |
| ServerSpec.LoginEffects | BlackEdgeXCom/BaseAsyncServer.cs:214-219 | a login sends exactly one ack `[identity, empty, "HS"]`; if it is delivered, the identity is added and NewClientIdentityConnected is raised with the snapshot flag; if not, the identity is evicted, its disconnect callback comes first and NewClientIdentityConnected is still raised |
| ServerSpec.LogoutReportsRemaining | BlackEdgeXCom/BaseAsyncServer.cs:221-225 | a logout removes only that identity (no-op if absent), sends nothing and reports the size after removal |
| ServerSpec.ToggleTwiceRestores | BlackEdgeXCom/BaseAsyncServer.cs:230-237 | with the ack delivered, two toggles restore the original membership |
| ServerSpec.NoneHandshakeChangesNothing | BlackEdgeXCom/BaseAsyncServer.cs:203-205 | type None leaves registry, send log and callbacks unchanged; a message routed to the handshake path never has type None |
| ServerSpec.ReceiveRouting | BlackEdgeXCom/BaseAsyncServer.cs:155-160 | a handshake changes only its sender's membership and sends at most one ack; another message of three or more frames goes to the payload handler unchanged; anything shorter is dropped |
| ServerSpec.ReceiveAllTouchesOnlySenders | BlackEdgeXCom/BaseAsyncServer.cs:150-164 | a receive turn changes the membership only of identities that sent a handshake in it |
| ServerSpec.BroadcastEvicts | BlackEdgeXCom/BaseAsyncServer.cs:300-314 | after a broadcast the registry holds exactly the old identities whose send was delivered, in any order; one disconnect callback iff anything failed, and it reports the registry size after the evictions |
| ServerSpec.SendEach | BlackEdgeXCom/BaseAsyncServer.cs:316-330 | sending several messages to one identity attempts at most one envelope per message |
| ServerSpec.SendEachAttemptsPrefix | BlackEdgeXCom/BaseAsyncServer.cs:320-324 | the attempted envelopes are a prefix of the messages, in order, each `[identity, empty, message]` |
| ServerSpec.SendEachCompletes | BlackEdgeXCom/BaseAsyncServer.cs:320-324 | unless a send raises, every message is attempted (a refused send does not stop the loop) |
| ServerSpec.SendEachEvicts | BlackEdgeXCom/BaseAsyncServer.cs:316-330 | no other identity's membership changes; the identity stays registered iff it was and every attempted send was delivered |
| ServerSpec.FailedSends | BlackEdgeXCom/BaseAsyncServer.cs:320-324 | the number of undelivered sends is at most the number of messages |
| ServerSpec.SendEachReportsEachFailure | BlackEdgeXCom/BaseAsyncServer.cs:316-330 | the earlier callbacks are kept, and one disconnect callback is added per attempted send that was refused or raised |
| Server.BaseAsyncServer.constructor | BlackEdgeXCom/BaseAsyncServer.cs:43-55 | empty registry; mandatory-routing socket, bound unless delayed; enabled two-second heartbeat timer; both attached to the caller's poller or to a new running one; watchdog scheduled once |
| Server.InitRouterSocket | BlackEdgeXCom/BaseAsyncServer.cs:60-82 | a fresh socket in mandatory-routing mode, affinity set if required, bound iff binding is not delayed, receive handler subscribed |
| Server.NewHeartbeatTimer | BlackEdgeXCom/BaseAsyncServer.cs:113-115 | the heartbeat timer is enabled, subscribed and runs every 2000 ms |
| Server.AttachToPoller | BlackEdgeXCom/BaseAsyncServer.cs:117-129 | without a caller's poller, a new running poller holding exactly the socket and the timer; otherwise both are added to the caller's poller, whose running state is kept |
| Server.EnumerateIdentities | BlackEdgeXCom/BaseAsyncServer.cs:363 | the foreach over the registry visits every identity exactly once |
| Server.BaseAsyncServer.RemoveClientIdentity | BlackEdgeXCom/BaseAsyncServer.cs:221-225 | the state moves as `RemoveClient` |
| Server.BaseAsyncServer.ClientErrorSingleRecipient | BlackEdgeXCom/BaseAsyncServer.cs:288-296 | the failing identity is evicted at once |
| Server.BaseAsyncServer.ClientErrorBatchOperation | BlackEdgeXCom/BaseAsyncServer.cs:298 | the failing identity is only remembered in the failure set |
| Server.BaseAsyncServer.RemoveInvalidIdentities | BlackEdgeXCom/BaseAsyncServer.cs:300-314 | the remembered identities are removed together, one disconnect callback iff there were any, and the failure set is emptied |
| Server.BaseAsyncServer.SendMessageToClientInternalWithHandler | BlackEdgeXCom/BaseAsyncServer.cs:275-286 | one attempt; a refused or raising send (every send raises once the socket is disposed) goes to the chosen handler (evict now, or remember); a delivered one changes nothing else |
| Server.BaseAsyncServer.AddClientIdentity | BlackEdgeXCom/BaseAsyncServer.cs:214-219 | the state moves as `AddClient` |
| Server.BaseAsyncServer.ToggleConnection | BlackEdgeXCom/BaseAsyncServer.cs:230-237 | the state moves as `Toggle` |
| Server.BaseAsyncServer.ProcessHandshake | BlackEdgeXCom/BaseAsyncServer.cs:184-212 | the state moves as `HandshakeStep`: the sender is the first frame, dispatch on the type at offset 1 |
| Server.BaseAsyncServer.MessageReadyToReceive | BlackEdgeXCom/BaseAsyncServer.cs:150-164 | at most 500 messages are taken, all if fewer wait; the rest stay queued; the state moves as `ReceiveAll` over the messages taken |
| Server.BaseAsyncServer.FanOut | BlackEdgeXCom/BaseAsyncServer.cs:360-365 | every registered identity is tried exactly once with the batch handler, the registry and callbacks are untouched mid-loop, the failure set is exactly the identities whose send failed |
| Server.BaseAsyncServer.SendMessageToClientsInternal | BlackEdgeXCom/BaseAsyncServer.cs:360-367 | the state moves as `Broadcast` for an order visiting each identity once; the failure set is empty again |
| Server.BaseAsyncServer.SendFrameToClientsInternal | BlackEdgeXCom/BaseAsyncServer.cs:264-270 | a one-frame broadcast is the same two-phase broadcast |
| Server.BaseAsyncServer.SendCommentedMessageToClients | BlackEdgeXCom/BaseAsyncServer.cs:246-251 | every identity registered before the call is tried exactly once with the 8-byte network-order comment then the message; the state moves as `Broadcast` |
| Server.BaseAsyncServer.SendTextCommentedMessageToClients | BlackEdgeXCom/BaseAsyncServer.cs:253-258 | every identity registered before the call is tried exactly once with the comment frame then the message frame; the state moves as `Broadcast` |
| Server.BaseAsyncServer.SendMessagesToClientInternal | BlackEdgeXCom/BaseAsyncServer.cs:316-346 | the state moves as `SendEach`: a refused send evicts and the loop goes on, a raising send evicts and ends it |
| Server.BaseAsyncServer.SendMessageToClientInternal | BlackEdgeXCom/BaseAsyncServer.cs:348-349 | a whole message to one client with the evict-now handler |
| Server.BaseAsyncServer.SendFrameToClientInternal | BlackEdgeXCom/BaseAsyncServer.cs:351-358 | one frame to one client with the evict-now handler |
| Server.BaseAsyncServer.HeartbeatTimerElapsed | BlackEdgeXCom/BaseAsyncServer.cs:134-143 | the watchdog is rescheduled and `"HB"` goes through the same two-phase broadcast |
| Server.BaseAsyncServer.CheckValidClient | BlackEdgeXCom/BaseAsyncServer.cs:369-370 | true iff the identity is registered |
| Server.BaseAsyncServer.Dispose | BlackEdgeXCom/BaseAsyncServer.cs:374-389 | watchdog disposed; heartbeat timer disabled, unsubscribed and detached; socket unsubscribed, detached and disposed; poller stopped and disposed only if the server created it; registry untouched |
| ClientSpec.SetEnable | BlackEdgeXCom/BaseAsyncClient.cs:256-257 | the Enable setter sets the flag and restarts the countdown only when it turns a disabled timer on |
| ClientSpec.EnableAndReset | BlackEdgeXCom/BaseAsyncClient.cs:245-249 | EnableAndReset leaves the timer enabled with its countdown restarted |
| ClientSpec.EnableIfOffKeepsCountdown | BlackEdgeXCom/BaseAsyncClient.cs:256-257 | enabling only if off is the Enable setter; an enabled timer keeps its countdown, a disabled one is reset |
| ClientSpec.Route | BlackEdgeXCom/BaseAsyncClient.cs:219-227 | routing one message keeps the earlier callbacks as a prefix and adds at most one; a message of fewer than two frames changes nothing |
| ClientSpec.ReceiveBatch | BlackEdgeXCom/BaseAsyncClient.cs:207-234 | a receive turn keeps the earlier callbacks as a prefix, and a turn that counts no message changes nothing |
| ClientSpec.BatchStep | BlackEdgeXCom/BaseAsyncClient.cs:215 | one iteration of the receive loop unfolds `ReceiveBatch` by one poll |
| ClientSpec.BatchAdvance | BlackEdgeXCom/BaseAsyncClient.cs:215-217 | after a successful poll, the rest of the turn counts one message fewer and ends in the same state |
| ClientSpec.RouteEffects | BlackEdgeXCom/BaseAsyncClient.cs:219-227 | routing adds at most one callback and never clears the handshake or connected flag; ConnectionEstablished is added exactly for a two-frame message ending in `"HS"`, which sets both flags and disables the failure timer; a two-frame `"HB"` changes nothing |
| ClientSpec.AckTestsLastFrameOnly | BlackEdgeXCom/HandshakeHelper.cs:93-94 | any two-frame message ending in `"HS"`, whatever its first frame, establishes the connection |
| ClientSpec.BatchWithinBudget | BlackEdgeXCom/BaseAsyncClient.cs:209-215 | a receive turn counts at most its budget and leaves a well-formed, no longer queue |
| ClientSpec.SingleFrameEndsBatch | BlackEdgeXCom/BaseAsyncClient.cs:215 | a single-frame message at the head is dropped and ends the turn with nothing counted or routed, even with whole messages behind it |
| ClientSpec.RouteFollows | BlackEdgeXCom/BaseAsyncClient.cs:219-227 | routing one message keeps the earlier callbacks as a prefix, adds at most one, and keeps set flags set |
| ClientSpec.BatchEvents | BlackEdgeXCom/BaseAsyncClient.cs:213-228 | a turn keeps the earlier callbacks as a prefix, adds at most one per message counted, and keeps set flags set |
| Client.NewHandshakeReceiveFailureTimer | BlackEdgeXCom/BaseAsyncClient.cs:52-54 | the failure timer starts enabled with its countdown reset, ten-second period, handler subscribed |
| Client.NewHeartbeatTimer | BlackEdgeXCom/BaseAsyncClient.cs:58-60 | the heartbeat timer starts disabled, ten-second period, handler subscribed |
| Client.BaseAsyncClient.constructor | BlackEdgeXCom/BaseAsyncClient.cs:44-66 | pending LoginWithSnapshot, not connected, no handshake received, failure timer enabled; heartbeat timer enabled iff the connect failed; ConnectionFailed iff the connect failed; the login sent iff asked and the connect succeeded; monitor counter incremented; attached to the caller's poller or a new running one |
| Client.BaseAsyncClient.InitPoller | BlackEdgeXCom/BaseAsyncClient.cs:147-163 | socket and both timers attached; a poller the client created is started |
| Client.BaseAsyncClient.InitSocket | BlackEdgeXCom/BaseAsyncClient.cs:68-112 | a new socket with the new identity; a failed connect raises ConnectionFailed, re-arms the heartbeat timer and sends nothing; otherwise the pending handshake goes out iff asked |
| Client.BaseAsyncClient.MonitorConnected | BlackEdgeXCom/BaseAsyncClient.cs:126-135 | the pending handshake is sent iff `sendHandshakeOnConnect`, then the heartbeat timer is re-armed unless disposing |
| Client.BaseAsyncClient.MonitorDisconnected | BlackEdgeXCom/BaseAsyncClient.cs:117-121 | Disconnected is raised and nothing else changes |
| Client.BaseAsyncClient.SendHandshakeInternal | BlackEdgeXCom/BaseAsyncClient.cs:137-145 | the failure timer is enabled and the pending type's message, if it has one, is sent; on a disposed socket the send raises and nothing goes out |
| Client.BaseAsyncClient.SendHandshake | BlackEdgeXCom/BaseAsyncClient.cs:173-180 | sets `sendHandshakeOnConnect`, then sends the pending handshake |
| Client.BaseAsyncClient.HandshakeReceiveFailureTimerElapsed | BlackEdgeXCom/BaseAsyncClient.cs:165-171 | the failure timer disables itself, connected is cleared, ConnectionFailed is raised; the handshake flag is untouched |
| Client.BaseAsyncClient.DisconnectDealerSocket | BlackEdgeXCom/BaseAsyncClient.cs:200-205 | the socket's handler is unsubscribed and it is detached and disposed |
| Client.BaseAsyncClient.HeartbeatTimerElapsed | BlackEdgeXCom/BaseAsyncClient.cs:182-198 | unless disposing: old socket dropped, HeartbeatFailed raised, heartbeat timer disabled, handshake flag cleared, pending type LoginWithoutSnapshot, a new socket attached with no handshake sent; while disposing nothing changes |
| Client.BaseAsyncClient.ProcessHandshake | BlackEdgeXCom/BaseAsyncClient.cs:236-243 | handshake received, failure timer disabled, connected, ConnectionEstablished raised |
| Client.BaseAsyncClient.DelayHeartbeatTimer | BlackEdgeXCom/BaseAsyncClient.cs:245-249 | the heartbeat countdown restarts unless disposing |
| Client.BaseAsyncClient.DealerSocketReceiveReady | BlackEdgeXCom/BaseAsyncClient.cs:207-234 | the turn does exactly what `ReceiveBatch` with budget 100 says; the heartbeat timer is enabled-and-reset iff a message was counted and the client is not disposing; only the inbound queue, the flags, the callbacks and the two timers' enabled flags and restart counts may change, and the failure timer's countdown is never restarted |
| Client.BaseAsyncClient.ReceiveMessages | BlackEdgeXCom/BaseAsyncClient.cs:213-228 | the loop's count, resulting flags and callbacks, and leftover frames are those of `ReceiveBatch`; nothing is sent; only the inbound queue, the flags, the callbacks and the failure timer's enabled flag and restart count may change, and the failure timer's countdown is never restarted |
| Client.BaseAsyncClient.RouteMessage | BlackEdgeXCom/BaseAsyncClient.cs:219-227 | one message is routed as `Route` says; the failure timer's countdown is never restarted |
| Client.BaseAsyncClient.ExecuteIfSendReady | BlackEdgeXCom/BaseAsyncClient.cs:251-259 | the send runs iff the handshake was received or early sends are allowed; it raises, sending nothing and leaving the heartbeat timer as it was, iff it runs and its frames are empty or the socket is disposed; otherwise an empty frame then the frames go out and the heartbeat timer is enabled, reset only if it was off |
| Client.BaseAsyncClient.SendMessageToServer | BlackEdgeXCom/BaseAsyncClient.cs:261-262 | when sending is allowed and the socket is not disposed, exactly `[empty, payload]` goes out; on a disposed socket the call raises and nothing goes out. The rest of the state and the inbound queue are unchanged; after a delivered send the heartbeat timer is enabled, its countdown restarted only if it was off; after a raise nothing changes |
| Client.BaseAsyncClient.SendMultipartMessageToServer | BlackEdgeXCom/BaseAsyncClient.cs:263 | when sending is allowed, an empty frame then the message's frames go out, unless the message is empty or the socket disposed, when the call raises and nothing goes out. The rest of the state and the inbound queue are unchanged; after a delivered send the heartbeat timer is enabled, its countdown restarted only if it was off; after a raise nothing changes |
| Client.BaseAsyncClient.SendCommentedMessageToServer | BlackEdgeXCom/BaseAsyncClient.cs:265-269 | when sending is allowed and the socket is not disposed, exactly `[empty, comment, message]` goes out; on a disposed socket the call raises and nothing goes out. The rest of the state and the inbound queue are unchanged; after a delivered send the heartbeat timer is enabled, its countdown restarted only if it was off; after a raise nothing changes |
| Client.BaseAsyncClient.SendIntCommentedMessageToServer | BlackEdgeXCom/BaseAsyncClient.cs:271-272 | when sending is allowed and the socket is not disposed, the empty frame, the 4-byte network-order comment and the message go out; on a disposed socket the call raises and nothing goes out. The rest of the state and the inbound queue are unchanged; after a delivered send the heartbeat timer is enabled, its countdown restarted only if it was off; after a raise nothing changes |
| Client.BaseAsyncClient.IsConnected | BlackEdgeXCom/BaseAsyncClient.cs:22 | reads the connected flag |
| Client.BaseAsyncClient.DetachTimer | BlackEdgeXCom/BaseAsyncClient.cs:319-325 | a timer is disabled, unsubscribed and removed from the poller |
| Client.BaseAsyncClient.SendLogOff | BlackEdgeXCom/BaseAsyncClient.cs:339-343 | the pending type becomes Logout and the handshake is sent |
| Client.BaseAsyncClient.Dispose | BlackEdgeXCom/BaseAsyncClient.cs:313-337 | the body runs at most once: disposing set, both timers disabled and detached, the logout sent, the socket dropped, the poller stopped and disposed only if the client created it; a second call changes nothing |
| Servicer.TruncatedMilliseconds | BlackEdgeXCom/CommunicationServicer.cs:34 | the whole milliseconds of a time span, truncated toward zero |
| Servicer.TimerCallbackInfo.constructor | BlackEdgeXCom/CommunicationServicer.cs:20-28 | a new timer, enabled, handler subscribed, at the truncated interval, added to the poller |
| Servicer.TimerCallbackInfo.ToggleEnabled | BlackEdgeXCom/CommunicationServicer.cs:30-31 | the enabled flag becomes the argument; the countdown restarts exactly when a disabled timer is turned on; interval and handler kept |
| Servicer.TimerCallbackInfo.UpdateFrequency | BlackEdgeXCom/CommunicationServicer.cs:33-34 | the interval becomes the truncated milliseconds; an enabled timer's countdown restarts; enabled flag and subscription are unchanged |
| Servicer.TimerCallbackInfo.Dispose | BlackEdgeXCom/CommunicationServicer.cs:36-40 | the handler is unsubscribed and the timer removed from the poller |
| Servicer.CommunicationServicer.constructor | BlackEdgeXCom/CommunicationServicer.cs:48-55 | empty registry, a new running poller, the description defaulting to the class name |
| Servicer.CommunicationServicer.AddTimerCallbackOnServicerThread | BlackEdgeXCom/CommunicationServicer.cs:65-70 | the returned key maps to a new enabled timer attached to the poller; every other entry is kept |
| Servicer.CommunicationServicer.DisposeTimer | BlackEdgeXCom/CommunicationServicer.cs:72-76 | a present key is removed and its timer detached; an absent key changes nothing; other entries are kept |
| Servicer.CommunicationServicer.Dispose | BlackEdgeXCom/CommunicationServicer.cs:57-63 | every registered timer is detached and unsubscribed, then the poller is disposed |
| Atomic.AtomicBool.constructor | BlackEdgeXCom/AtomicBool.cs:17 | the flag holds the constructor argument |
| Atomic.AtomicBool.IsSet | BlackEdgeXCom/AtomicBool.cs:19 | reads the flag without changing it |
| Atomic.AtomicBool.Set | BlackEdgeXCom/AtomicBool.cs:20 | the flag becomes true |
| Atomic.AtomicBool.UnSet | BlackEdgeXCom/AtomicBool.cs:21 | the flag becomes false |
| Atomic.AtomicBool.SetTo | BlackEdgeXCom/AtomicBool.cs:22 | the flag becomes the argument |
| Atomic.AtomicBool.CheckSetAndUnset | BlackEdgeXCom/AtomicBool.cs:24 | returns the old flag and leaves it false |
| Atomic.AtomicBool.CheckUnsetAndSet | BlackEdgeXCom/AtomicBool.cs:25 | returns true iff the old flag was false and leaves it true |
| Atomic.Wrap32 | BlackEdgeXCom/AtomicCountXP.cs:24-26 | the 32-bit result is congruent to the exact value modulo 2^32 and equal to it when it fits |
| Atomic.WrapAbsorbs | BlackEdgeXCom/AtomicCountXP.cs:27 | wrapping an intermediate operand does not change a wrapped sum |
| Atomic.AtomicCountXP.constructor | BlackEdgeXCom/AtomicCountXP.cs:15-18 | the counter starts at the initial count |
| Atomic.AtomicCountXP.Zero | BlackEdgeXCom/AtomicCountXP.cs:20-22 | the parameterless constructor starts at 0 |
| Atomic.AtomicCountXP.Count | BlackEdgeXCom/AtomicCountXP.cs:12 | reads the counter without changing it |
| Atomic.AtomicCountXP.Increment | BlackEdgeXCom/AtomicCountXP.cs:24 | stores and returns old + 1, wrapped to 32 bits |
| Atomic.AtomicCountXP.Decrement | BlackEdgeXCom/AtomicCountXP.cs:25 | stores and returns old - 1, wrapped to 32 bits |
| Atomic.AtomicCountXP.Add | BlackEdgeXCom/AtomicCountXP.cs:26 | stores and returns old + n, wrapped to 32 bits |
| Atomic.AtomicCountXP.Subtract | BlackEdgeXCom/AtomicCountXP.cs:27 | adding the wrapped negation stores and returns old - n, wrapped to 32 bits |
| Atomic.SubtractMinValue | BlackEdgeXCom/AtomicCountXP.cs:27 | negating int.MinValue wraps to itself, and subtracting it still gives the wrapped difference |
| Atomic.AtomicCountXP.Reset | BlackEdgeXCom/AtomicCountXP.cs:28 | stores 0 and returns the previous value |
| Atomic.AtomicCountXP.SetTo | BlackEdgeXCom/AtomicCountXP.cs:29 | stores the argument |
| Collections.AsEnumerable | BlackEdgeXCom/IEnumerableExtensions.cs:11-14 | exactly the one item |
| Collections.SafeContains | BlackEdgeXCom/IEnumerableExtensions.cs:16-17 | false for a null set, membership otherwise |
| Collections.CountElements | BlackEdgeXCom/IEnumerableExtensions.cs:74-83 | the first loop stores each element's number of occurrences, and only positive counts |
| Collections.TakeOne | BlackEdgeXCom/IEnumerableExtensions.cs:91-94 | one occurrence is taken off a count; a count reaching zero removes the key |
| Collections.TallyEmpty | BlackEdgeXCom/IEnumerableExtensions.cs:97 | after the second loop the dictionary is empty iff the sequences are equal as multisets |
| Collections.UnsortedSequencesEqual | BlackEdgeXCom/IEnumerableExtensions.cs:66-98 | a null first or second argument raises (first checked first); otherwise true iff the sequences are equal as multisets |
| Collections.Where | BlackEdgeXCom/IEnumerableExtensions.cs:112 | the filter keeps only elements of the source that satisfy the predicate |
| Collections.WhereSingleton | BlackEdgeXCom/IEnumerableExtensions.cs:112-121 | the filter has exactly one element iff exactly one position matches, and then it is that element; none iff no position matches |
| Collections.WherePrefix | BlackEdgeXCom/IEnumerableExtensions.cs:112-115 | filtering a prefix gives a prefix of the filtered whole, so the loop may stop at a second match |
| Collections.TryGetOnly | BlackEdgeXCom/IEnumerableExtensions.cs:103-122 | null source: false and the default; otherwise true iff exactly one element matches; the result is the default with no match and the first match otherwise |
| Collections.TryGetOnlyElement | BlackEdgeXCom/IEnumerableExtensions.cs:100-101 | true iff the source has exactly one element, and then the result is that element |
| Collections.OnlyOrDefault | BlackEdgeXCom/IEnumerableExtensions.cs:127-145 | null source raises; otherwise the unique match, or the default with none or two or more |
| Collections.OnlyOrDefaultElement | BlackEdgeXCom/IEnumerableExtensions.cs:124-125 | null source raises; the sole element of a one-element source, the default otherwise |
| Collections.OnlyOrFallback | BlackEdgeXCom/IEnumerableExtensions.cs:147-165 | null source raises; the sole element of a one-element source, the fallback otherwise |

## Left out

- The NetMQ transport itself (bind, connect, disconnect, monitors, socket options other than affinity and router-mandatory, the wire) is a foreign library. It is replaced by the `Transport` stand-ins: a send-outcome oracle, inbound queues and send logs. A refused connect is a constructor/parameter flag.
- Poller threading (`Run`, `RunAsync`, `RunOnPollerThread`, `RunOnServicerThread`, the `IsRunning` test in `SendHandshake`): every engine call is modelled as already running on the poller thread, so a marshalled action runs at once.
- Real timing: timers keep only their enabled flag, restart count, interval and subscription. The server's watchdog is a reschedule counter and a disposed flag, because it only logs.
- Logging has no modelled effect.
- Client identity generation (a Guid, the local IP address from IpUtils, UTF-16 encoding) and the guid of `AddTimerCallbackOnServicerThread` are parameters: fresh opaque values supplied by the caller.
- Servicer.CommunicationServicer.AddTimerCallbackOnServicerThread: does not prove the key is new, because the freshness of a generated guid is a property of the platform; a key already present is overwritten, as the dictionary indexer does.
- Text payloads and comments (the string overloads) are frames: the model does not encode strings to bytes, so the string and byte-array overloads of the send methods are one member each.
- Which callback was given to a timer (`TimerCallbackInfo`) and the callbacks' own bodies (`ProcessClientMessage`, `ProcessServerMessage`, the event subscribers) are not modelled. Each raise is an entry in the event log, and exceptions inside handlers are swallowed by the source.
- The broadcast fan-out order is the unspecified enumeration order of a hash set. It is a ghost result (`order`) of which only "each identity once" is stated.
- The comparer parameter of `UnsortedSequencesEqual` (the overload at IEnumerableExtensions.cs:66 with a comparer) is left out: the model uses Dafny equality, which is what the null-comparer overload at lines 19-22 passes.
- `RemoveFurthestFromMean`, `SelectUniqueBy` and `SelectArbitraryElementUniqueBy` are left out: the first is floating point, the other two depend on LINQ grouping.
- Servicer.TimerCallbackInfo.UpdateFrequency: a time span is modelled as whole ticks, so the double-precision `TotalMilliseconds` is not modelled; the cast truncates toward zero as stated. That setting the interval restarts an enabled timer's countdown, and does nothing to a disabled timer's, is NetMQ's `Interval` setter as the model takes it; NetMQ is not part of this model.
- Servicer.TruncatedMilliseconds: the result is the exact whole number of milliseconds. The source's cast to a 32-bit `int` overflows for spans longer than `int.MaxValue` milliseconds (about 24.8 days), and that out-of-range result is not modelled.
- Collections.CountElements: elements are Dafny values and never null, so the `ArgumentNullException` the dictionary raises for a null element (IEnumerableExtensions.cs:79) is not modelled.
- Collections.UnsortedSequencesEqual: as for `CountElements`, a null element, which makes the dictionary lookup at IEnumerableExtensions.cs:79 or :88 raise, is not modelled; only null sequences raise.
- Client.BaseAsyncClient.SendMultipartMessageToServer: with an empty message the empty frame has already been queued with the more-flag when the send raises; the model records nothing sent, so that left-over frame, which would join the next message, is not modelled.
- DealerReceive.WellFormed: the dealer's inbound queue always holds whole multipart messages, since the transport delivers a multipart message atomically. So the blocking `Receive` at DealerSocketExtensions.cs:24 always finds its frame; a queue that ends in the middle of a message is outside the model.
- Transport.RouterSocket: the send oracle is a fixed function of the message, so while the socket is open the same envelope always has the same outcome; outcomes that change over time (a peer that drops and reconnects) are not modelled. Once the socket is disposed every send raises.
- Atomicity, memory ordering, `volatile` and `ConcurrentDictionary` thread safety are out: each operation has its single-threaded effect.
- `ActionExtensions.ExecuteAndCatchException` and `SafeDispose`: every guarded teardown step is modelled as running to completion.
- The dealer socket options (keepalive, linger, reconnect interval, identity bytes) and `SetCustomSocketOptions` are not modelled; the static monitor counter is passed to the client constructor.
- `AddTimerToPoller`, `RemoveTimerFromPoller`, `CloseConnection`, `BindSocket`'s marshalling and the client's `Disconnect` only forward to NetMQ and are not modelled.
- The serializer layer (ISerializer, SerializeViaProtobuf, the BiTyped communicators, the string adapters) and NewClientIdentityConnectedEventArgs are thin adapters and are not part of this model.

## Behaviour of the code worth knowing

- When the handshake failure timer elapses, the client turns the timer off (BaseAsyncClient.cs:167); it is re-armed only by the next handshake it sends.
- The client's ack test on a two-frame message compares only the last frame with `"HS"` (HandshakeHelper.cs:93-94); the first frame is never looked at (`ClientSpec.AckTestsLastFrameOnly`).
- `ByteArraySequenceEqual` is not symmetric on empty arrays against null: an empty array equals null, but null does not equal an empty array (`Bytes.EmptyAndNullCompareOneWay`).
- The client's `Dispose` disables and detaches the failure timer, then the logout's `SendHandshakeInternal` sets its Enable flag again. The timer is already detached, so it never fires; the model states the flag as the code leaves it.
- A failed login ack evicts the identity before `NewClientIdentityConnected` is raised, so subscribers are told of a client that is no longer registered (`ServerSpec.LoginEffects`).
- `DealerSocketExtensions.TryGetNextMessage` consumes a single-frame message and reports false. The client's receive loop then ends its turn even if whole messages are waiting behind it (`ClientSpec.SingleFrameEndsBatch`).
