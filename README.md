# webrtc-to-rtp: signalling state machine and RTP relay, in Dafny

This project models the core of a small Go server that bridges a browser's
WebRTC session to local RTP consumers. A client talks to the server over a
websocket: it sends `start`, then an SDP `offer`, then ICE `candidate`s, and
the server answers with `ready`, an `answer` and its own `candidate`s, or with
`warning` / `error` notices. Once media flows, each incoming audio or video
track is relayed packet by packet to a fixed UDP port on 127.0.0.1. Before it
is relayed, each packet's RTP payload type (the 7-bit PT field of the fixed
header, section 5.1 of RFC 3550) is overwritten with a per-kind constant.

Everything modelled lives in `wshandles/webrtchandle.go`, except `send` and its
`sendWarning` / `sendError` wrappers from `wshandles/common.go`:

- `States` (states.dfy): the `webrtcState` enum, its integer order and `String()`.
- `Messages` (messages.dfy): the `webrtcMessage` record, the three notice
  shapes (`warning`, `error`, `status`), and the exact texts the handler puts
  into them.
- `Signalling` (signalling.dfy): one pass of the read loop as a pure function
  `Dispatch`. It gives the next state, the messages written, the peer engine
  operations started, whether callbacks got registered, and whether the loop
  goes on.
- `Session` (session.dfy): a connection as a sequence of events. The events
  are read-loop passes interleaved with the engine-driven callbacks
  (connection state change, ICE candidate gathered, track arrived). It
  includes the invariant that every reachable handle keeps, and the lemmas
  about traces.
- `Relay` (relay.dfy): the kind → (payload type, destination) table, the
  payload-type rewrite, and the relay loop as class `TrackRelay`, which reuses
  one packet struct across iterations, as the source does.
- `Handle` (handle.dfy): class `WebRtcHandle` with the fields the source
  assigns. It has the read-loop pass `Step`, the loop `Run`, the three
  callbacks, and `Interleave`, which runs any schedule of events. Each method
  is proved against `Session.Apply` / `Session.Trace`.

The peer engine (pion), the websocket and the UDP socket are not modelled
as code. They are parameters to the model:
- what `initializePeerConnection`, `takeOffer` and `takeCandidate` return
  (`EngineOracle`);
- whether the read failed, and with which close code, or the JSON did not
  parse (`Received`);
- what `Unmarshal`, `MarshalTo` and `Write` did in each relay iteration
  (`Iteration`);
- what `DialUDP` returned (`TrackArrived`).

Behaviours of the code that the model keeps:
- A message that fails to parse is skipped without any reply (no warning).
- A read error that is not a close error, or a close with code 1000, 1001
  or 1006, ends the loop. Only a close error with any other code is logged
  and the loop continues.
- Go's JSON decoder ignores the `required` tag. So `{}` or `null` decode to
  an empty command, which gets the unknown-command warning.
- `takeCandidate` passes only the candidate string to the engine. The
  client's `sdpMid` and `sdpMLineIndex` are dropped.
- `OnConnectionStateChange` has no guard. `Connected` sets Streaming from any
  state, Failed included. Callbacks can fire again after the loop has
  returned.
- Relays start when pion delivers a track, whatever the signalling state.
- A packet that fails to decode is not dropped. The reused struct still holds
  the previous packet, or the zero packet at first. That packet is rewritten
  and sent again.

## Model

| member | source | states |
|---|---|---|
| States.Ord | wshandles/webrtchandle.go:26-34 | Each state's integer value is below five; NotStarted is the first (0) and Failed the last (4). |
| States.NameInjective | wshandles/webrtchandle.go:36-38 | `States.Name` models `String()`, a lookup in the array literal. Different states get different names, so a warning identifies the actual state. |
| Messages.RepliesDistinct | wshandles/webrtchandle.go:40-46 | `ready`, `answer` and `candidate` replies are never equal, since their `cmd` differs. |
| Signalling.Dispatch | wshandles/webrtchandle.go:68-158 | Within one pass the state only moves forward in enum order. At most one message is written and at most one engine call is made. A state change needs an engine call. Read and parse failures change nothing. The loop ends only on a read error or when entering Failed. Entering Failed writes exactly one `error`. Callbacks are registered only by a successful `start` from NotStarted. |
| Signalling.StartCommand | wshandles/webrtchandle.go:91-112 | `start` outside NotStarted: one wrong-state warning built by `Messages.WrongStateText` (the template of line 89) naming `start`, the actual state and NotStarted; nothing else changes. In NotStarted the engine is created. Success: ReadyToBegin, exactly one `ready`, callbacks registered. Failure: Failed, exactly one `error` with the init text, the loop ends. |
| Signalling.OfferCommand | wshandles/webrtchandle.go:114-138 | `offer` outside ReadyToBegin: one wrong-state warning, nothing else. Accepted: the offer SDP goes to the engine unchanged. Success: Signalling and one `answer` carrying the local SDP. Failure: Failed, one `error`, the loop ends. |
| Signalling.CandidateCommand | wshandles/webrtchandle.go:140-153 | `candidate` never changes the state and the loop continues. Outside Signalling: one wrong-state warning and no engine call. In Signalling the candidate string goes to the engine. A failed add gives one warning; a successful one gives no message. |
| Signalling.UnknownCommand | wshandles/webrtchandle.go:154-157 | Any other command writes exactly `Received unknown command '<cmd>'. Ignored.` as a warning. State and engine are untouched; the loop continues. |
| Signalling.ReadAndParseFailures | wshandles/webrtchandle.go:69-87 | A parse failure writes nothing, keeps the state and continues. A read error writes nothing and keeps the state. The loop continues iff the error is a close error with a code outside {1000, 1001, 1006}. |
| Signalling.OnlyUsedFieldsMatter | wshandles/webrtchandle.go:114-153 | Two messages with the same command have the same effect when they agree on the one field that command reads (`sdp` for offer, `candidate` for candidate). `sdpMid` and `sdpMLineIndex` never matter. |
| Signalling.AtMostOneReply | wshandles/webrtchandle.go:89-158 | A message that calls no engine operation has exactly one effect: one warning. State and registration are unchanged and the loop continues. |
| Session.RelayFailureText | wshandles/webrtchandle.go:265-271 | The error text for a failed UDP dial starts with `Error creating UDP connection: `, followed by the dial error when the kind has a destination, and is always "missing address" when it has none, whatever the dial event says. |
| Session.TraceKeepsInv | wshandles/webrtchandle.go:89-241 | `Session.Apply` applies one event: a read pass only while the loop runs, a callback only once registered. Any sequence of such events keeps the invariant. Engine calls are ordered creation, offer, then candidates. NotStarted holds exactly when no engine call was made. ReadyToBegin means exactly one call and callbacks registered. Signalling means the offer was taken. The outbox holds exactly one `ready` iff callbacks are registered. |
| Session.EngineUsedInOrder | wshandles/webrtchandle.go:89-158 | In every interleaving from a fresh handle, the peer connection is created at most once and the offer taken at most once. No candidate reaches the engine before the offer. At most one `ready` is ever written. |
| Session.ReadsOnlyAdvance | wshandles/webrtchandle.go:89-158 | Over any run of the read loop alone, the state never moves backwards in the declaration order of lines 28-34. |
| Session.ConnectionCallbackUnguarded | wshandles/webrtchandle.go:222-241 | `Session.ConnectionStateNext` is the callback's switch. `Connected` sets Streaming and `Failed` sets Failed, whatever the current state. Every other connection state changes nothing. The callback writes nothing and calls no engine operation. |
| Session.FailedCanBecomeStreaming | wshandles/webrtchandle.go:225-233 | Because of that, a handle reached by a successful `start` followed by the engine reporting Failed moves backwards to Streaming when `Connected` arrives. |
| Session.IceCandidateCallback | wshandles/webrtchandle.go:207-220 | A gathered candidate writes exactly one `candidate` reply carrying its candidate, sdpMid and sdpMLineIndex. A nil candidate writes nothing. State and engine calls are unchanged. |
| Session.TrackCallback | wshandles/webrtchandle.go:251-272 | A track whose dial fails, or whose kind has no destination, appends exactly one `error` with the text `Error creating UDP connection: …` and keeps every earlier message. A track whose dial succeeds writes nothing. State, engine calls, loop status and registration are untouched. |
| Session.ClosedIsSilent | wshandles/webrtchandle.go:65-74 | Once the loop has returned and the websocket is closed, no further event writes a message or calls the engine, and the loop never resumes. |
| Session.LoopEndsOnlyOnCloseOrFailure | wshandles/webrtchandle.go:68-159 | Over the read loop alone, when no read fails, the loop can only have ended in Failed. |
| Session.StartTwice | wshandles/webrtchandle.go:91-112 | A second `start` after a successful one is one wrong-state warning naming ReadyToBegin. The engine is created exactly once. |
| Session.OfferBeforeStart | wshandles/webrtchandle.go:114-120 | An `offer` on a fresh handle is one wrong-state warning and changes nothing else. |
| Session.HappyPath | wshandles/webrtchandle.go:89-158 | start, offer, a successful candidate, then `bogus` write exactly `ready`, an `answer` with the local SDP, and the unknown-command warning for `bogus`. The engine sees creation, the offer SDP and the candidate string. |
| Relay.Target | wshandles/webrtchandle.go:251-264 | Audio goes to payload type 111 at 127.0.0.1:4000 and video to 96 at 127.0.0.1:4002. Both payload types fit the 7-bit PT field. No other kind has a destination. |
| Relay.PayloadTypeFor | wshandles/webrtchandle.go:250-264 | The payload type a relay writes always fits in 7 bits. |
| Relay.TargetsDisjoint | wshandles/webrtchandle.go:251-264 | Audio and video differ in both payload type and destination port. |
| Relay.Rewrite | wshandles/webrtchandle.go:287 | The rewritten packet has the kind's payload type. Every other header field and the payload are unchanged. |
| Relay.RewriteIdempotent | wshandles/webrtchandle.go:287-290 | Rewriting an already rewritten packet changes nothing. |
| Relay.Relayed | wshandles/webrtchandle.go:276-302 | The relay performs exactly one write per loop iteration. No per-packet failure (read, unmarshal, marshal, write, connection refused) ends the loop. |
| Relay.RelayedAt | wshandles/webrtchandle.go:274-302 | The i-th write sends the reused struct as it stands after the i-th rewrite, or an empty datagram when marshalling failed. |
| Relay.RelayedPayloadType | wshandles/webrtchandle.go:283-295 | Every packet the relay sends carries the kind's payload type, whatever PT arrived. |
| Relay.DecodedPacketForwarded | wshandles/webrtchandle.go:283-295 | A packet that decoded and encoded is sent with the PT replaced and everything else as received. |
| Relay.UndecodedResendsPrevious | wshandles/webrtchandle.go:275-295 | A packet that failed to decode is not dropped. The previous packet is sent again, rewritten; on the first iteration the zero packet is sent instead. |
| Relay.UndecodedDuplicatesLast | wshandles/webrtchandle.go:277-295 | An undecodable packet right after a sent packet produces a duplicate of that datagram, in the model where a failed Unmarshal keeps the struct (see Left out on the payload slice). |
| Relay.TrackRelay.constructor | wshandles/webrtchandle.go:250-275 | A started relay has the kind's payload type and destination, a zero packet struct, and nothing sent yet. |
| Relay.TrackRelay.Forward | wshandles/webrtchandle.go:276-301 | One iteration: the struct takes the decoded packet (if any) and then the kind's payload type. Exactly one write of that struct is recorded. |
| Relay.TrackRelay.Run | wshandles/webrtchandle.go:276-302 | Running any number of iterations leaves the struct and the write log exactly as `PacketAfter` and `Relayed` describe. |
| Handle.WebRtcHandle.constructor | wshandles/webrtchandle.go:57-60 | A new handle is in NotStarted: nothing written, no engine calls, no callbacks, the loop running. |
| Handle.WebRtcHandle.Send | wshandles/common.go:24-41 | A message is appended to what the client receives while the websocket is open. After close it is lost. |
| Handle.WebRtcHandle.Step | wshandles/webrtchandle.go:69-158 | One imperative pass updates state, outbox, engine calls, registration and loop status exactly as `Apply` of that read. It returns whether the loop continues. |
| Handle.WebRtcHandle.Run | wshandles/webrtchandle.go:67-159 | The loop reads until a pass returns. The handle ends as the trace of the inputs read. An input is left unread only if the loop has ended, and then the last pass read is the one that ended it. |
| Handle.WebRtcHandle.OnConnectionStateChange | wshandles/webrtchandle.go:222-241 | The callback assigns only `state`, exactly as `Apply` of the connection state change. |
| Handle.WebRtcHandle.OnIceCandidate | wshandles/webrtchandle.go:207-220 | The callback writes only the outbox, exactly as `Apply` of the gathered candidate. |
| Handle.WebRtcHandle.OnTrack | wshandles/webrtchandle.go:243-272 | A relay starts iff the kind has a destination and the dial succeeded. A started relay begins from the zero packet with the kind's payload type and has sent nothing. It uses the kind's destination (audio to port 4000, video to 4002). Otherwise exactly one `error` is written. |
| Handle.WebRtcHandle.Interleave | wshandles/webrtchandle.go:179-181 | Any schedule of read passes and registered callbacks leaves the handle exactly as `Trace` of that schedule. So the trace lemmas hold of the class. |

## Left out

- WebSocket upgrade, origin policy, framing and JSON encoding/decoding (wshandles/wsupgrader.go, wshandles/common.go): replaced by the `Received` outcome of a read and by structured `Outbound` values. `sendStatus` is never called by the modelled code; `Status` exists only as a shape.
- main.go and the package `init()` that builds the pion media engine and API: set-up of foreign library objects, with no logic.
- The pion peer connection (ICE, DTLS, SDP, the STUN server configuration) and the `rtp.Packet` byte format: their results are parameters. A failed `Unmarshal` is modelled as leaving the struct untouched. Any partial overwrite pion may do before it rejects a packet is not modelled. Nor is aliasing: `rtp.Packet.Payload` is a slice of `packetBytes`, which `track.Read` overwrites, so after a long but undecodable read the re-sent payload can hold the new bytes rather than an exact copy of the previous one.
- Mutexes and goroutines: each event (a read pass, a callback) is applied atomically. A callback that runs while `takeOffer` is in progress is scheduled before or after the pass. ICE candidates that pion gathers in `SetLocalDescription` and writes before the `answer` are modelled by scheduling the candidate callback before the `offer` pass; the result is the same, because that callback does not read the state. Not modelled: a connection-state callback that runs after `offer` set Signalling and before a failing `takeOffer` sets Failed. In the source that run ends in Failed with the loop returned; the model can only schedule the callback before the pass (a wrong-state warning) or after it (Streaming).
- Logging and the `shortuuid` identifier (an opaque `id`).
- UDP address resolution and sockets: `DialUDP` is a parameter, and the dialled local address is not modelled.
- gorilla's behaviour after a read error: `ReadMessage` repeats the same error, and panics after many repeats. The model lets each read report its own outcome.
- The relay loop has no exit: `TrackRelay.Run` models any finite number of its iterations.
- Session.RelayFailureText: for a kind with no destination, the text uses net's "missing address" message without the `dial udp …` prefix that Go's `OpError` adds.
