/**
 * The client engine's receive side (BaseAsyncClient) as pure functions:
 * how one message read off the dealer socket is routed, and what one
 * receive turn of at most 100 messages does. The class in `Client` is
 * proved to follow them.
 */
module ClientSpec {
  import opened Bytes
  import opened Transport
  import opened Handshake
  import opened DealerReceive

  /** The callbacks the client raises, in order. */
  datatype ClientEvent =
    | ConnectionFailed
    | ConnectionEstablished
    | HeartbeatFailed
    | Disconnected
    | ServerMessage(payload: Frame)                              // a two-frame message: its last frame
    | PaddedServerMessage(lastFrame: Frame, frameCount: nat)     // a longer message: its last frame and frame count

  /** The part of the client state a received message can change. */
  datatype ClientReaction = ClientReaction(
    handshakeReceived: bool,
    failureTimerEnabled: bool,
    connected: bool,
    events: seq<ClientEvent>)

  /** A scheduler timer's flags: enabled, countdown restarts, handler subscribed. */
  datatype TimerState = TimerState(enabled: bool, restarts: nat, subscribed: bool)

  /** The Enable setter: only turning a disabled timer on restarts it. */
  function SetEnable(t: TimerState, value: bool): (u: TimerState)
    ensures u.enabled == value && u.subscribed == t.subscribed
    ensures u.restarts == if value && !t.enabled then t.restarts + 1 else t.restarts
  {
    t.(enabled := value, restarts := if value && !t.enabled then t.restarts + 1 else t.restarts)
  }

  /** EnableAndReset: enabled, countdown restarted whatever the previous state. */
  function EnableAndReset(t: TimerState): (u: TimerState)
    ensures u.enabled && u.restarts == t.restarts + 1 && u.subscribed == t.subscribed
  {
    t.(enabled := true, restarts := t.restarts + 1)
  }

  /** Enabling only if off is the same as the Enable setter: an enabled timer keeps its countdown. */
  lemma EnableIfOffKeepsCountdown(t: TimerState)
    ensures (if !t.enabled then SetEnable(t, true) else t) == SetEnable(t, true)
    ensures t.enabled ==> SetEnable(t, true) == t
    ensures !t.enabled ==> SetEnable(t, true) == EnableAndReset(t)
  {
  }

  /** One receive turn handles at most this many messages. */
  const MaxMessagesToReceiveInBatch: nat := 100

  /**
   * Routing of one multipart message, known by its last frame and frame
   * count: with two frames, an "HS" last frame is the server's ack, an "HB"
   * last frame is a heartbeat and is swallowed, anything else is a payload;
   * longer messages go to the padded handler.
   */
  function Route(r: ClientReaction, last: Frame, numFrames: nat): (s: ClientReaction)
    ensures r.events <= s.events && |s.events| <= |r.events| + 1
    ensures s != r ==> numFrames >= 2
  {
    if numFrames == 2 then
      if IsHandshakeFrame(last) then
        ClientReaction(true, false, true, r.events + [ConnectionEstablished])
      else if !IsHeartbeatFrame(last) then
        r.(events := r.events + [ServerMessage(last)])
      else r
    else if numFrames > 2 then
      r.(events := r.events + [PaddedServerMessage(last, numFrames)])
    else r
  }

  /** What a receive turn did: messages counted, the resulting reaction, the frames left. */
  datatype Batch = Batch(count: nat, reaction: ClientReaction, rest: seq<Received>)

  /**
   * The receive loop: while under budget, poll one message; stop at the
   * first poll that fails (nothing waiting, or a single-frame message,
   * which the poll drops); otherwise count it and route it.
   */
  function ReceiveBatch(q: seq<Received>, message: Received, budget: nat, r: ClientReaction): (b: Batch)
    requires WellFormed(q)
    ensures r.events <= b.reaction.events
    ensures b.count == 0 ==> b.reaction == r
    decreases budget
  {
    if budget == 0 then Batch(0, r, q)
    else
      var p := Poll(q, message);
      if !p.ok then Batch(0, r, p.rest)
      else
        var b := ReceiveBatch(p.rest, p.message, budget - 1, Route(r, p.message.frame, p.numFrames));
        Batch(b.count + 1, b.reaction, b.rest)
  }

  /** One turn of the receive loop, as the loop in the client engine takes it. */
  lemma BatchStep(q: seq<Received>, message: Received, budget: nat, r: ClientReaction, p: Polled)
    requires WellFormed(q) && budget > 0 && Poll(q, message) == p
    ensures WellFormed(p.rest)
    ensures ReceiveBatch(q, message, budget, r) ==
      if !p.ok then Batch(0, r, p.rest)
      else var b := ReceiveBatch(p.rest, p.message, budget - 1, Route(r, p.message.frame, p.numFrames));
           Batch(b.count + 1, b.reaction, b.rest)
  {
    PollTakesOneMessage(q, message);
  }

  /**
   * The receive loop's bookkeeping across one successful turn: what is
   * left of the batch after this message is one message fewer, with the
   * same final reaction and the same frames left over.
   */
  lemma BatchAdvance(q: seq<Received>, message: Received, budget: nat, r: ClientReaction, p: Polled)
    requires WellFormed(q) && budget > 0 && Poll(q, message) == p && p.ok
    ensures WellFormed(p.rest)
    ensures var before := ReceiveBatch(q, message, budget, r);
      var after := ReceiveBatch(p.rest, p.message, budget - 1, Route(r, p.message.frame, p.numFrames));
      before.count == after.count + 1 && before.reaction == after.reaction && before.rest == after.rest
  {
    BatchStep(q, message, budget, r, p);
  }

  // ----- properties -----

  /**
   * Routing never clears the handshake flag or the connected flag and adds
   * at most one callback; it sets the connection up exactly for a
   * two-frame message ending in "HS", which also disarms the failure timer.
   */
  lemma RouteEffects(r: ClientReaction, last: Frame, numFrames: nat)
    ensures var s := Route(r, last, numFrames);
      (r.handshakeReceived ==> s.handshakeReceived) && (r.connected ==> s.connected)
      && |r.events| <= |s.events| <= |r.events| + 1 && s.events[..|r.events|] == r.events
      && ((numFrames == 2 && last == HandshakeMessagePayload) <==>
            s.events == r.events + [ConnectionEstablished])
      && (numFrames == 2 && last == HandshakeMessagePayload ==>
            s.handshakeReceived && s.connected && !s.failureTimerEnabled)
      && (!(numFrames == 2 && last == HandshakeMessagePayload) ==>
            s.handshakeReceived == r.handshakeReceived && s.connected == r.connected
            && s.failureTimerEnabled == r.failureTimerEnabled)
      && (numFrames == 2 && last == HeartbeatMessagePayload ==> s == r)
  {
    FrameTestsAreExclusive(last);
    if numFrames == 2 && !IsHandshakeFrame(last) && !IsHeartbeatFrame(last) {
      assert ServerMessage(last) != ConnectionEstablished;
      assert Route(r, last, numFrames).events[|r.events|] == ServerMessage(last);
    } else if numFrames > 2 {
      assert Route(r, last, numFrames).events[|r.events|] == PaddedServerMessage(last, numFrames);
    }
  }

  /**
   * The ack test of a two-frame message looks at its last frame only:
   * whatever the first frame holds, a message ending in "HS" establishes
   * the connection.
   */
  lemma AckTestsLastFrameOnly(anyFirstFrame: Frame, tail: seq<Received>, r: ClientReaction)
    requires WellFormed(tail)
    ensures var q := [Received(anyFirstFrame, true), Received(HandshakeMessagePayload, false)] + tail;
      WellFormed(q)
      && ReceiveBatch(q, Received([], false), 1, r).reaction
         == ClientReaction(true, false, true, r.events + [ConnectionEstablished])
  {
    var q := [Received(anyFirstFrame, true), Received(HandshakeMessagePayload, false)] + tail;
    assert EndFrom(q, 1) == 2;
    assert MessageEnd(q) == 2;
    FrameTestsAreExclusive(HandshakeMessagePayload);
  }

  /** A receive turn handles no more messages than its budget and leaves a well-formed queue. */
  lemma {:induction false} BatchWithinBudget(q: seq<Received>, message: Received, budget: nat, r: ClientReaction)
    requires WellFormed(q)
    ensures ReceiveBatch(q, message, budget, r).count <= budget
    ensures WellFormed(ReceiveBatch(q, message, budget, r).rest)
    ensures |ReceiveBatch(q, message, budget, r).rest| <= |q|
    decreases budget
  {
    if budget > 0 {
      var p := Poll(q, message);
      PollTakesOneMessage(q, message);
      if p.ok {
        BatchWithinBudget(p.rest, p.message, budget - 1, Route(r, p.message.frame, p.numFrames));
      }
    }
  }

  /**
   * A single-frame message at the head of the queue ends the turn: it is
   * dropped and nothing is counted or routed, even if whole messages
   * follow it.
   */
  lemma SingleFrameEndsBatch(frame: Frame, tail: seq<Received>, message: Received, budget: nat, r: ClientReaction)
    requires WellFormed(tail) && budget > 0
    ensures WellFormed([Received(frame, false)] + tail)
    ensures ReceiveBatch([Received(frame, false)] + tail, message, budget, r) == Batch(0, r, tail)
  {
    var q := [Received(frame, false)] + tail;
    assert q[1..] == tail;
  }

  /**
   * `s` follows `r` after at most `k` routed messages: the callbacks of
   * `r` come first, at most `k` more follow, and the flags set in `r` stay set.
   */
  ghost predicate Follows(r: ClientReaction, s: ClientReaction, k: nat)
  {
    r.events <= s.events && |s.events| <= |r.events| + k
    && (r.handshakeReceived ==> s.handshakeReceived) && (r.connected ==> s.connected)
  }

  lemma RouteFollows(r: ClientReaction, last: Frame, numFrames: nat)
    ensures Follows(r, Route(r, last, numFrames), 1)
  {
    RouteEffects(r, last, numFrames);
  }

  lemma FollowsTrans(a: ClientReaction, b: ClientReaction, c: ClientReaction, j: nat, k: nat)
    requires Follows(a, b, j) && Follows(b, c, k)
    ensures Follows(a, c, j + k)
  {
  }

  lemma FollowsRefl(r: ClientReaction)
    ensures Follows(r, r, 0)
  {
  }

  /** One successful poll followed by a turn that follows its routed reaction is a turn that follows the start. */
  lemma BatchEventsStep(q: seq<Received>, message: Received, budget: nat, r: ClientReaction, p: Polled)
    requires WellFormed(q) && budget > 0 && Poll(q, message) == p && p.ok
    requires var b := ReceiveBatch(p.rest, p.message, budget - 1, Route(r, p.message.frame, p.numFrames));
      Follows(Route(r, p.message.frame, p.numFrames), b.reaction, b.count)
    ensures Follows(r, ReceiveBatch(q, message, budget, r).reaction, ReceiveBatch(q, message, budget, r).count)
  {
    var r' := Route(r, p.message.frame, p.numFrames);
    var b := ReceiveBatch(p.rest, p.message, budget - 1, r');
    BatchAdvance(q, message, budget, r, p);
    RouteFollows(r, p.message.frame, p.numFrames);
    FollowsTrans(r, r', b.reaction, 1, b.count);
  }

  /**
   * A turn adds at most one callback per message counted, and the flags
   * it sets stay set.
   */
  lemma {:induction false} BatchEvents(q: seq<Received>, message: Received, budget: nat, r: ClientReaction)
    requires WellFormed(q)
    ensures Follows(r, ReceiveBatch(q, message, budget, r).reaction, ReceiveBatch(q, message, budget, r).count)
    decreases budget
  {
    if budget == 0 {
      FollowsRefl(r);
    } else {
      var p := Poll(q, message);
      if !p.ok {
        BatchStep(q, message, budget, r, p);
        FollowsRefl(r);
      } else {
        BatchEvents(p.rest, p.message, budget - 1, Route(r, p.message.frame, p.numFrames));
        BatchEventsStep(q, message, budget, r, p);
      }
    }
  }

}
