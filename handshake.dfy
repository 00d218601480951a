/**
 * The handshake codec (HandshakeHelper): the fixed control messages and
 * the classification of inbound frame lists by offset and frame count.
 * Offset 0 is the client's view of a message, offset 1 the server's (the
 * transport puts the sender's identity in front).
 */
module Handshake {
  import W = Wrappers
  import opened Bytes
  import opened Transport

  datatype HandshakeType = None | ToggleConnection | LoginWithSnapshot | LoginWithoutSnapshot | Logout

  const ClientFrameOffset: nat := 0
  const ServerFrameOffset: nat := 1

  const MessageTypeFrameOffset: nat := 1
  const HandshakeActionFrameOffset: nat := 2
  const SnapshotRequestFrameOffset: nat := 3

  const HeartbeatMessageFrames: nat := 2
  const HandshakeMinMessageFrames: nat := MessageTypeFrameOffset + 1
  const HandshakeWithActionMinMessageFrames: nat := HandshakeActionFrameOffset + 1
  const HandshakeWithSnapshotQualifierMinMessageFrames: nat := SnapshotRequestFrameOffset + 1

  const HandshakeMessagePayload: Frame := [72, 83]     // "HS"
  const LoginMessagePayload: Frame := [73, 78]         // "IN"
  const LogoutMessagePayload: Frame := [79, 85, 84]    // "OUT"
  const SnapshotRequestPayload: Frame := [83, 78]      // "SN"
  const HeartbeatMessagePayload: Frame := [72, 66]     // "HB"

  const EmptyFrame: Frame := []

  const ToggleConnectionHandshakeMessage: Message := [EmptyFrame, HandshakeMessagePayload]
  const LoginMessageWithSnapshot: Message :=
    [EmptyFrame, HandshakeMessagePayload, LoginMessagePayload, SnapshotRequestPayload]
  const LoginMessageWithoutSnapshot: Message :=
    [EmptyFrame, HandshakeMessagePayload, LoginMessagePayload, EmptyFrame]
  const LogoutMessage: Message := [EmptyFrame, HandshakeMessagePayload, LogoutMessagePayload]

  /** The "HS" frame the server sends back as a handshake acknowledgement. */
  const HandshakeFrame: Frame := LoginMessageWithSnapshot[MessageTypeFrameOffset]
  /** The "HB" frame the server broadcasts on each heartbeat tick. */
  const HeartbeatFrame: Frame := HeartbeatMessagePayload

  // The byte arrays the classifiers compare against, taken from the messages above.
  const HandshakeBytes: seq<byte> := HandshakeFrame
  const HeartbeatBytes: seq<byte> := HeartbeatFrame
  const LoginBytes: seq<byte> := LoginMessageWithSnapshot[HandshakeActionFrameOffset]
  const LogoutBytes: seq<byte> := LogoutMessage[HandshakeActionFrameOffset]
  const SnapshotBytes: seq<byte> := LoginMessageWithSnapshot[SnapshotRequestFrameOffset]

  /** Compares a frame of a message (never null) with one of the marker arrays. */
  function FrameEquals(frame: Frame, marker: seq<byte>): (r: bool)
    ensures r <==> frame == marker
  {
    ByteArraySequenceEqual(W.Some(frame), W.Some(marker))
  }

  /** A handshake: enough frames, an empty frame at the offset, and "HS" right after it. */
  function IsHandshakeMessage(message: Message, frameOffset: nat): (r: bool)
    ensures r <==> |message| >= frameOffset + 2 && message[frameOffset] == [] && message[frameOffset + 1] == HandshakeMessagePayload
  {
    |message| >= frameOffset + HandshakeMinMessageFrames && message[frameOffset] == []
    && FrameEquals(message[frameOffset + MessageTypeFrameOffset], HandshakeBytes)
  }

  /** The single-frame overload: the one frame kept of a received message is compared with "HS". */
  function IsHandshakeFrame(message: Frame): (r: bool)
    ensures r <==> message == HandshakeMessagePayload
  {
    SpanSequenceEqual(Over(message), AsSpan(W.Some(HandshakeBytes)))
  }

  /**
   * The handshake sub-type, decided by the frame count counted from the
   * offset: four or more frames select a login whose snapshot flag is the
   * fourth frame; exactly three select a logout or, failing that, a login
   * with snapshot; exactly two a toggle; fewer, None.
   */
  function GetHandshakeType(message: Message, frameOffset: nat): (r: HandshakeType)
    ensures r == None <==> |message| < frameOffset + 2
    ensures |message| >= frameOffset + 4 ==>
      (r == LoginWithSnapshot <==> message[frameOffset + 3] == SnapshotRequestPayload)
      && r in {LoginWithSnapshot, LoginWithoutSnapshot}
    ensures |message| == frameOffset + 3 ==>
      (r == Logout <==> message[frameOffset + 2] == LogoutMessagePayload)
      && r in {Logout, LoginWithSnapshot}
    ensures |message| == frameOffset + 2 ==> r == ToggleConnection
  {
    if |message| >= frameOffset + HandshakeWithSnapshotQualifierMinMessageFrames then
      if FrameEquals(message[frameOffset + SnapshotRequestFrameOffset], SnapshotBytes) then LoginWithSnapshot
      else LoginWithoutSnapshot
    else if |message| >= frameOffset + HandshakeWithActionMinMessageFrames then
      if FrameEquals(message[frameOffset + HandshakeActionFrameOffset], LogoutBytes) then Logout
      else LoginWithSnapshot  // an unqualified login is taken as a snapshot request
    else if |message| >= frameOffset + HandshakeMinMessageFrames then ToggleConnection
    else None
  }

  /** The fixed message of a handshake type; None has none (the source's null). */
  function TryGetHandshakeMessage(handshakeType: HandshakeType): (r: W.Option<Message>)
    ensures r.None? <==> handshakeType == None
  {
    match handshakeType
    case LoginWithSnapshot => W.Some(LoginMessageWithSnapshot)
    case LoginWithoutSnapshot => W.Some(LoginMessageWithoutSnapshot)
    case Logout => W.Some(LogoutMessage)
    case ToggleConnection => W.Some(ToggleConnectionHandshakeMessage)
    case None => W.None
  }

  /** A heartbeat: exactly two frames from the offset, the first empty, the second "HB". */
  function IsHeartbeatMessage(message: Message, frameOffset: nat): (r: bool)
    ensures r <==> |message| == frameOffset + 2 && message[frameOffset] == [] && message[frameOffset + 1] == HeartbeatMessagePayload
  {
    |message| == frameOffset + HeartbeatMessageFrames && message[frameOffset] == []
    && FrameEquals(message[frameOffset + MessageTypeFrameOffset], HeartbeatBytes)
  }

  /** The single-frame overload of the heartbeat test. */
  function IsHeartbeatFrame(message: Frame): (r: bool)
    ensures r <==> message == HeartbeatMessagePayload
  {
    SpanSequenceEqual(Over(message), AsSpan(W.Some(HeartbeatBytes)))
  }

  // ----- properties -----

  /**
   * Every real handshake type has a message, and classifying that message
   * gives the type back: at offset 0 as the client sends it, and at offset
   * 1 once any identity frame is put in front, as the server receives it.
   */
  lemma HandshakeRoundTrip(t: HandshakeType, identity: Frame)
    requires t != None
    ensures TryGetHandshakeMessage(t).Some?
    ensures GetHandshakeType(TryGetHandshakeMessage(t).value, ClientFrameOffset) == t
    ensures GetHandshakeType([identity] + TryGetHandshakeMessage(t).value, ServerFrameOffset) == t
  {
    var m := TryGetHandshakeMessage(t).value;
    var sm := [identity] + m;
    assert sm[1..] == m;
  }

  /** No message for None: the source hands back null and false. */
  lemma NoMessageForNone()
    ensures TryGetHandshakeMessage(None) == W.None
  {
  }

  /** Every produced message passes the handshake test (at offset 0, and at offset 1 behind an identity) and never the heartbeat test. */
  lemma ProducedMessagesAreHandshakes(t: HandshakeType, identity: Frame)
    requires t != None
    ensures IsHandshakeMessage(TryGetHandshakeMessage(t).value, ClientFrameOffset)
    ensures !IsHeartbeatMessage(TryGetHandshakeMessage(t).value, ClientFrameOffset)
    ensures IsHandshakeMessage([identity] + TryGetHandshakeMessage(t).value, ServerFrameOffset)
    ensures !IsHeartbeatMessage([identity] + TryGetHandshakeMessage(t).value, ServerFrameOffset)
  {
    var m := TryGetHandshakeMessage(t).value;
    assert ([identity] + m)[1..] == m;
  }

  /** With a snapshot qualifier present, the action frame (offset+2) is never looked at. */
  lemma ActionFrameIgnoredWhenQualified(message: Message, frameOffset: nat, anyFrame: Frame)
    requires |message| >= frameOffset + 4
    ensures GetHandshakeType(message[frameOffset + 2 := anyFrame], frameOffset) == GetHandshakeType(message, frameOffset)
  {
  }

  /** Neither control test accepts a message whose frame at the offset is not empty. */
  lemma NonEmptyLeadFrameIsNeverControl(message: Message, frameOffset: nat)
    requires frameOffset < |message| && message[frameOffset] != []
    ensures !IsHandshakeMessage(message, frameOffset) && !IsHeartbeatMessage(message, frameOffset)
  {
  }

  /**
   * The heartbeat test wants exactly offset+2 frames; the handshake test
   * takes any longer message too, so any payload behind the marker is
   * classified as a handshake.
   */
  lemma HeartbeatExactHandshakeOpenEnded(frameOffset: nat, prefix: Message, trailing: Message)
    requires |prefix| == frameOffset
    ensures IsHandshakeMessage(prefix + [EmptyFrame, HandshakeMessagePayload] + trailing, frameOffset)
    ensures IsHeartbeatMessage(prefix + [EmptyFrame, HeartbeatMessagePayload] + trailing, frameOffset) <==> trailing == []
  {
    var h := prefix + [EmptyFrame, HandshakeMessagePayload] + trailing;
    assert h[frameOffset] == EmptyFrame && h[frameOffset + 1] == HandshakeMessagePayload;
    var b := prefix + [EmptyFrame, HeartbeatMessagePayload] + trailing;
    assert b[frameOffset] == EmptyFrame && b[frameOffset + 1] == HeartbeatMessagePayload;
  }

  /** The single-frame tests are byte equality with "HS" and "HB", so no frame passes both. */
  lemma FrameTestsAreExclusive(frame: Frame)
    ensures IsHandshakeFrame(frame) <==> frame == HandshakeMessagePayload
    ensures IsHeartbeatFrame(frame) <==> frame == HeartbeatMessagePayload
    ensures !(IsHandshakeFrame(frame) && IsHeartbeatFrame(frame))
  {
  }
}
