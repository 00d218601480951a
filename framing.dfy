/**
 * The router-side envelope (CommunicationExtensions): a message to one
 * client is its identity frame, an empty delimiter frame, then the payload
 * frames; plus the endpoint text used in logs and the affinity option.
 */
module Framing {
  import opened Wrappers
  import opened Bytes
  import opened Transport
  import opened Handshake
  import opened Sequences

  /** The header of every message the router addresses: the identity, then the empty delimiter. */
  function GetMessageWithIdentityHeader(identity: Frame, expectedFrameCount: int): (m: Message)
    ensures |m| == 2 && m[0] == identity && m[1] == []
  {
    [identity, EmptyFrame]
  }

  /** The whole envelope: header, then the payload frames in order. */
  function IdentityMessage(identity: Frame, payload: seq<Frame>): (m: Message)
    ensures |m| == |payload| + 2
    ensures m[0] == identity && m[1] == []
    ensures forall k :: 0 <= k < |payload| ==> m[k + 2] == payload[k]
  {
    GetMessageWithIdentityHeader(identity, |payload|) + payload
  }

  /**
   * Builds the envelope frame by frame, as the sending loop does. The
   * expected frame count is only a capacity hint: the result does not
   * depend on it.
   */
  method BuildIdentityMessage(identity: Frame, messagePayload: seq<Frame>, numFrames: int) returns (message: Message)
    ensures message == IdentityMessage(identity, messagePayload)
  {
    message := GetMessageWithIdentityHeader(identity, numFrames);
    var i := 0;
    while i < |messagePayload|
      invariant 0 <= i <= |messagePayload|
      invariant message == [identity, EmptyFrame] + messagePayload[..i]
    {
      message := message + [messagePayload[i]];
      TakeSnoc(messagePayload, i);
      i := i + 1;
    }
    TakeAll(messagePayload);
  }

  /** Sends the payload frames to one identity: one attempt, with the envelope. */
  method TrySendMessagesToIdentity(socket: RouterSocket, identity: Frame, messagePayload: seq<Frame>, numFrames: int)
      returns (outcome: SendOutcome)
    modifies socket`attempts
    ensures socket.attempts == old(socket.attempts) + [IdentityMessage(identity, messagePayload)]
    ensures outcome == socket.Outcomes()(IdentityMessage(identity, messagePayload))
  {
    var message := BuildIdentityMessage(identity, messagePayload, numFrames);
    outcome := socket.TrySendMultipartMessage(message);
  }

  /**
   * Sends a single payload frame to one identity. The frame, byte-array
   * and string overloads differ only in how the payload becomes a frame.
   */
  method TrySendMessageToIdentity(socket: RouterSocket, identity: Frame, messagePayload: Frame)
      returns (outcome: SendOutcome)
    modifies socket`attempts
    ensures socket.attempts == old(socket.attempts) + [[identity, [], messagePayload]]
    ensures outcome == socket.Outcomes()([identity, [], messagePayload])
  {
    var message := GetMessageWithIdentityHeader(identity, 1) + [messagePayload];
    assert message == [identity, [], messagePayload];
    outcome := socket.TrySendMultipartMessage(message);
  }

  /**
   * The router strips the identity frame and delivers the rest to that
   * client: the single-payload envelope is the general one with one frame,
   * and what the dealer reads starts with the empty delimiter, so a
   * handshake or heartbeat payload arrives as the client-side control
   * message at client offset 0.
   */
  lemma {:induction false} EnvelopeDeliversControlToClient(identity: Frame, payload: seq<Frame>)
    ensures IdentityMessage(identity, payload)[1..] == [EmptyFrame] + payload
    ensures IdentityMessage(identity, [HandshakeFrame])[1..] == ToggleConnectionHandshakeMessage
    ensures IsHandshakeMessage(IdentityMessage(identity, [HandshakeFrame])[1..], ClientFrameOffset)
    ensures IsHeartbeatMessage(IdentityMessage(identity, [HeartbeatFrame])[1..], ClientFrameOffset)
    ensures IdentityMessage(identity, [HeartbeatFrame]) == [identity, [], HeartbeatFrame]
  {
    var m := IdentityMessage(identity, payload);
    assert m[1..] == [EmptyFrame] + payload;
    assert IdentityMessage(identity, [HandshakeFrame]) == [identity, [], HandshakeFrame];
    assert IdentityMessage(identity, [HeartbeatFrame]) == [identity, [], HeartbeatFrame];
  }

  // ----- monitor events -----

  /** What reading a monitor event's remote endpoint gives. */
  datatype EndpointReading =
    | NoSocket                      // the event carries no socket
    | Unreadable                    // reading the endpoint raised
    | Endpoint(text: Option<string>) // the endpoint's text, which may be null

  const UnknownEndpoint: string := "unknown"

  /** The endpoint text, or "unknown" when there is no socket, reading it raises or the text is null. */
  function GetRemoteEndpointStringSafe(e: EndpointReading): (r: string)
    ensures e.Endpoint? && e.text.Some? ==> r == e.text.value
    ensures !(e.Endpoint? && e.text.Some?) ==> r == "unknown"
  {
    match e
    case Endpoint(Some(text)) => text
    case _ => UnknownEndpoint
  }

  // ----- socket options -----

  /**
   * Pins the socket to one I/O thread when the library runs more than one
   * (both the plain and the thread-safe options overloads); with exactly
   * one thread the option is left alone.
   */
  method SetAffinityIfRequired(options: SocketOptions, threadPoolSize: int)
    modifies options
    ensures options.affinity == if threadPoolSize != 1 then 1 else old(options.affinity)
    ensures options.routerMandatory == old(options.routerMandatory)
  {
    if threadPoolSize != 1 {
      options.affinity := 1;
    }
  }
}
