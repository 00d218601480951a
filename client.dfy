/**
 * The client engine (BaseAsyncClient) as a class: its flags, its two
 * timers, the connected flag, the dealer socket it rebuilds after a
 * heartbeat failure, and the callback log. `State()` gathers what the
 * engine's methods change; each method states its new state as a change
 * of the old one.
 */
module Client {
  import opened Bytes
  import opened Transport
  import opened Handshake
  import opened DealerReceive
  import opened Atomic
  import opened ClientSpec
  import W = Wrappers

  /** Both timers run on ten-second periods. */
  const HeartbeatIntervalMs: int := 10000
  const HandshakeFailureIntervalMs: int := 10000

  /** The engine's observable state. */
  datatype ClientState = ClientState(
    handshakeReceived: bool,
    disposing: bool,
    pendingHandshakeType: HandshakeType,
    sendHandshakeOnConnect: bool,
    connected: bool,
    heartbeat: TimerState,
    failureTimer: TimerState,
    events: seq<ClientEvent>,
    sent: seq<Message>,
    socketDisposed: bool)

  /** The handshake of the pending type, if it has one, appended to what the socket has sent. */
  function WithHandshake(sent: seq<Message>, pending: HandshakeType): seq<Message>
  {
    match TryGetHandshakeMessage(pending)
    case Some(m) => sent + [m]
    case None => sent
  }

  /**
   * SendHandshakeInternal on a state: the failure timer is enabled (its
   * countdown restarts only if it was off) and the pending handshake is
   * sent, unless the socket is disposed, when the send raises and nothing
   * goes out.
   */
  function HandshakeSent(s: ClientState): ClientState
  {
    s.(failureTimer := SetEnable(s.failureTimer, true),
       sent := if s.socketDisposed then s.sent else WithHandshake(s.sent, s.pendingHandshakeType))
  }

  /** DelayHeartbeatTimer on a state: restart the heartbeat countdown unless disposing. */
  function HeartbeatDelayed(s: ClientState): ClientState
  {
    if s.disposing then s else s.(heartbeat := EnableAndReset(s.heartbeat))
  }

  /** The handshake failure timer as the constructor sets it up: counting down, handler subscribed. */
  method NewHandshakeReceiveFailureTimer() returns (timer: NetTimer)
    ensures fresh(timer) && timer.enabled && timer.restarts == 1 && timer.subscribed
    ensures timer.intervalMs == HandshakeFailureIntervalMs
  {
    timer := new NetTimer(HandshakeFailureIntervalMs);
    timer.EnableAndReset();
    timer.SetSubscribed(true);
  }

  /** The heartbeat timer as the constructor sets it up: handler subscribed, not running. */
  method NewHeartbeatTimer() returns (timer: NetTimer)
    ensures fresh(timer) && !timer.enabled && timer.restarts == 0 && timer.subscribed
    ensures timer.intervalMs == HeartbeatIntervalMs
  {
    timer := new NetTimer(HeartbeatIntervalMs);
    timer.SetSubscribed(true);
    timer.SetEnable(false);
  }

  class BaseAsyncClient {
    const sendMessagesBeforeHandshake: bool
    const createdPoller: bool
    const connectionEstablished: AtomicBool
    const heartbeatTimer: NetTimer
    const handshakeReceiveFailureTimer: NetTimer
    const poller: Poller
    const monitorCounter: AtomicCountXP
    var dealerSocket: DealerSocket
    var identity: Frame
    var handshakeReceived: bool
    var disposing: bool
    var pendingHandshakeType: HandshakeType
    var sendHandshakeOnConnect: bool
    var events: seq<ClientEvent>

    ghost predicate Valid()
      reads this, connectionEstablished
    {
      connectionEstablished.Valid() && heartbeatTimer != handshakeReceiveFailureTimer
    }

    function Timer(t: NetTimer): TimerState
      reads t
    {
      TimerState(t.enabled, t.restarts, t.subscribed)
    }

    function State(): ClientState
      reads this, connectionEstablished, heartbeatTimer, handshakeReceiveFailureTimer, dealerSocket
    {
      ClientState(handshakeReceived, disposing, pendingHandshakeType, sendHandshakeOnConnect,
        connectionEstablished.Get(), Timer(heartbeatTimer), Timer(handshakeReceiveFailureTimer), events, dealerSocket.sent,
        dealerSocket.disposed)
    }

    /** The part of the state the receive path changes. */
    function Reaction(): ClientReaction
      reads this, connectionEstablished, handshakeReceiveFailureTimer
    {
      ClientReaction(handshakeReceived, handshakeReceiveFailureTimer.enabled, connectionEstablished.Get(), events)
    }

    /**
     * The constructor: pending LoginWithSnapshot, not connected, the
     * failure timer armed, the heartbeat timer off; then the socket is
     * built (and the handshake sent if asked and the connect succeeded)
     * and everything is attached to the given poller or a new running one.
     * `newIdentity` stands for the generated identity, `inbound` for what
     * the server will send, `connectFails` for a refused connect.
     */
    constructor (sendMessagesBeforeHandshake: bool, sharedPoller: Poller?, sendHandshakeImmediately: bool,
                 monitorCounter: AtomicCountXP, newIdentity: Frame, inbound: seq<Received>, connectFails: bool)
      modifies sharedPoller, monitorCounter
      ensures Valid()
      ensures this.sendMessagesBeforeHandshake == sendMessagesBeforeHandshake
      ensures createdPoller <==> sharedPoller == null
      ensures fresh(dealerSocket) && dealerSocket.identity == newIdentity && identity == newIdentity
      ensures dealerSocket.inbound == inbound && dealerSocket.receiveSubscribed && !dealerSocket.disposed
      ensures !handshakeReceived && !disposing && pendingHandshakeType == LoginWithSnapshot
      ensures sendHandshakeOnConnect == sendHandshakeImmediately
      ensures !connectionEstablished.Get()
      ensures handshakeReceiveFailureTimer.enabled && handshakeReceiveFailureTimer.subscribed
      ensures handshakeReceiveFailureTimer.intervalMs == HandshakeFailureIntervalMs
      ensures heartbeatTimer.subscribed && heartbeatTimer.intervalMs == HeartbeatIntervalMs
      ensures heartbeatTimer.enabled <==> connectFails
      ensures events == if connectFails then [ConnectionFailed] else []
      ensures dealerSocket.sent == if sendHandshakeImmediately && !connectFails then [LoginMessageWithSnapshot] else []
      ensures monitorCounter.count == Wrap32(old(monitorCounter.count) as int + 1)
      ensures sharedPoller == null ==>
        fresh(poller) && poller.running && poller.attached == {dealerSocket, heartbeatTimer, handshakeReceiveFailureTimer}
      ensures sharedPoller != null ==>
        poller == sharedPoller && poller.running == old(sharedPoller.running)
        && poller.attached == old(sharedPoller.attached) + {dealerSocket, heartbeatTimer, handshakeReceiveFailureTimer}
    {
      this.sendMessagesBeforeHandshake := sendMessagesBeforeHandshake;
      pendingHandshakeType := LoginWithSnapshot;
      connectionEstablished := new AtomicBool(false);

      var failureTimer := NewHandshakeReceiveFailureTimer();
      handshakeReceiveFailureTimer := failureTimer;

      sendHandshakeOnConnect := sendHandshakeImmediately;

      var heartbeat := NewHeartbeatTimer();
      heartbeatTimer := heartbeat;

      this.monitorCounter := monitorCounter;
      createdPoller := sharedPoller == null;
      if sharedPoller == null {
        var p := new Poller();
        poller := p;
      } else {
        poller := sharedPoller;
      }
      handshakeReceived, disposing, events := false, false, [];
      dealerSocket := new DealerSocket(newIdentity, []);
      identity := newIdentity;
      new;
      InitSocket(sendHandshakeImmediately, newIdentity, inbound, connectFails);
      InitPoller();
    }

    /**
     * Attach the socket and both timers to the poller; a poller this
     * client created is also started (the caller's is left as it is).
     */
    method InitPoller()
      modifies poller
      ensures poller.attached == old(poller.attached) + {dealerSocket, heartbeatTimer, handshakeReceiveFailureTimer}
      ensures poller.running == (createdPoller || old(poller.running)) && poller.disposed == old(poller.disposed)
    {
      poller.Add(dealerSocket);
      poller.Add(heartbeatTimer);
      poller.Add(handshakeReceiveFailureTimer);
      if createdPoller {
        poller.RunAsync();
      }
    }

    /**
     * A new dealer socket with a new identity; a refused connect raises
     * ConnectionFailed and re-arms the heartbeat timer (so a reconnect is
     * tried one period later) and sends nothing; otherwise the pending
     * handshake is sent if asked.
     */
    method InitSocket(sendHandshakeImmediately: bool, newIdentity: Frame, inbound: seq<Received>, connectFails: bool)
      requires Valid()
      modifies this, monitorCounter, handshakeReceiveFailureTimer, heartbeatTimer
      ensures Valid()
      ensures fresh(dealerSocket) && dealerSocket.identity == newIdentity && identity == newIdentity
      ensures dealerSocket.inbound == inbound && dealerSocket.receiveSubscribed && !dealerSocket.disposed
      ensures monitorCounter.count == Wrap32(old(monitorCounter.count) as int + 1)
      ensures var s := old(State()).(sent := [], socketDisposed := false);
        State() == if connectFails then HeartbeatDelayed(s.(events := s.events + [ConnectionFailed]))
                   else if sendHandshakeImmediately then HandshakeSent(s)
                   else s
      ensures heartbeatTimer.intervalMs == old(heartbeatTimer.intervalMs)
      ensures handshakeReceiveFailureTimer.intervalMs == old(handshakeReceiveFailureTimer.intervalMs)
    {
      dealerSocket := new DealerSocket(newIdentity, inbound);
      identity := newIdentity;
      var _ := monitorCounter.Increment();
      var connectionError := connectFails;
      if connectionError {
        events := events + [ConnectionFailed];
        DelayHeartbeatTimer();
      }
      dealerSocket.receiveSubscribed := true;
      if sendHandshakeImmediately && !connectionError {
        SendHandshakeInternal();
      }
    }

    /** The monitor's connected event: send the pending handshake if asked, then re-arm the heartbeat timer. */
    method MonitorConnected()
      requires Valid()
      modifies dealerSocket, handshakeReceiveFailureTimer, heartbeatTimer
      ensures Valid()
      ensures State() == HeartbeatDelayed(if old(sendHandshakeOnConnect) then HandshakeSent(old(State())) else old(State()))
      ensures dealerSocket.inbound == old(dealerSocket.inbound)
    {
      if sendHandshakeOnConnect {
        SendHandshakeInternal();
      }
      DelayHeartbeatTimer();
    }

    /** The monitor's disconnected event: raise Disconnected. */
    method MonitorDisconnected()
      modifies this
      ensures State() == old(State()).(events := old(events) + [Disconnected])
      ensures dealerSocket == old(dealerSocket) && identity == old(identity)
    {
      events := events + [Disconnected];
    }

    /** Enable the failure timer, then send the pending handshake if its type has a message. */
    method SendHandshakeInternal()
      requires Valid()
      modifies dealerSocket, handshakeReceiveFailureTimer
      ensures Valid()
      ensures State() == HandshakeSent(old(State()))
      ensures dealerSocket.inbound == old(dealerSocket.inbound)
      ensures dealerSocket.receiveSubscribed == old(dealerSocket.receiveSubscribed)
      ensures dealerSocket.disposed == old(dealerSocket.disposed)
      ensures handshakeReceiveFailureTimer.intervalMs == old(handshakeReceiveFailureTimer.intervalMs)
    {
      handshakeReceiveFailureTimer.SetEnable(true);
      var handshakeMessage := TryGetHandshakeMessage(pendingHandshakeType);
      if handshakeMessage.Some? {
        var _ := dealerSocket.SendMultipartMessage(handshakeMessage.value);
      }
    }

    /** Ask for the handshake on every later connect, and send it now. */
    method SendHandshake()
      requires Valid()
      modifies this, dealerSocket, handshakeReceiveFailureTimer
      ensures Valid()
      ensures State() == HandshakeSent(old(State()).(sendHandshakeOnConnect := true))
      ensures dealerSocket == old(dealerSocket) && identity == old(identity)
      ensures dealerSocket.inbound == old(dealerSocket.inbound)
      ensures dealerSocket.receiveSubscribed == old(dealerSocket.receiveSubscribed)
      ensures dealerSocket.disposed == old(dealerSocket.disposed)
    {
      sendHandshakeOnConnect := true;
      SendHandshakeInternal();
    }

    /**
     * No ack in time: the failure timer turns itself off, the client is
     * marked not connected and ConnectionFailed is raised; the handshake
     * flag is left as it was.
     */
    method HandshakeReceiveFailureTimerElapsed()
      requires Valid()
      modifies this, handshakeReceiveFailureTimer, connectionEstablished
      ensures Valid()
      ensures State() == old(State()).(failureTimer := SetEnable(old(State()).failureTimer, false),
                                       connected := false, events := old(events) + [ConnectionFailed])
      ensures dealerSocket == old(dealerSocket) && identity == old(identity)
    {
      handshakeReceiveFailureTimer.SetEnable(false);
      connectionEstablished.UnSet();
      events := events + [ConnectionFailed];
    }

    /** Detach the dealer socket from the poller and dispose it. */
    method DisconnectDealerSocket()
      modifies dealerSocket`receiveSubscribed, dealerSocket`disposed, poller`attached
      ensures !dealerSocket.receiveSubscribed && dealerSocket.disposed
      ensures poller.attached == old(poller.attached) - {dealerSocket}
    {
      dealerSocket.receiveSubscribed := false;
      poller.Remove(dealerSocket);
      dealerSocket.disposed := true;
    }

    /**
     * No traffic for a heartbeat period: unless disposing, drop the socket,
     * raise HeartbeatFailed, stop the heartbeat timer, forget the
     * handshake, and build a new socket that will log in without a
     * snapshot (no handshake now: it goes out on the connect event).
     * While disposing nothing happens.
     */
    method HeartbeatTimerElapsed(newIdentity: Frame, inbound: seq<Received>, connectFails: bool)
      requires Valid()
      modifies this, dealerSocket, poller, monitorCounter, handshakeReceiveFailureTimer, heartbeatTimer
      ensures Valid()
      ensures old(disposing) ==>
        State() == old(State()) && dealerSocket == old(dealerSocket) && poller.attached == old(poller.attached)
      ensures !old(disposing) ==>
        old(dealerSocket).disposed && !old(dealerSocket).receiveSubscribed
        && fresh(dealerSocket) && dealerSocket.identity == newIdentity && dealerSocket.inbound == inbound
        && dealerSocket.receiveSubscribed && !dealerSocket.disposed
        && poller.attached == old(poller.attached) - {old(dealerSocket)} + {dealerSocket}
        && monitorCounter.count == Wrap32(old(monitorCounter.count) as int + 1)
        && var s := old(State()).(events := old(events) + [HeartbeatFailed],
                                  heartbeat := SetEnable(old(State()).heartbeat, false),
                                  handshakeReceived := false,
                                  pendingHandshakeType := LoginWithoutSnapshot,
                                  sent := [], socketDisposed := false);
           State() == if connectFails then HeartbeatDelayed(s.(events := s.events + [ConnectionFailed])) else s
    {
      if !disposing {
        DisconnectDealerSocket();
        events := events + [HeartbeatFailed];
        heartbeatTimer.SetEnable(false);
        handshakeReceived := false;
        pendingHandshakeType := LoginWithoutSnapshot;
        InitSocket(false, newIdentity, inbound, connectFails);
        poller.Add(dealerSocket);
      }
    }

    /** The server's ack: handshake received, failure timer off, connected, ConnectionEstablished raised. */
    method ProcessHandshake()
      requires Valid()
      modifies this`handshakeReceived, this`events, handshakeReceiveFailureTimer`enabled, handshakeReceiveFailureTimer`restarts,
               connectionEstablished
      ensures Valid()
      ensures State() == old(State()).(handshakeReceived := true,
                                       failureTimer := SetEnable(old(State()).failureTimer, false),
                                       connected := true, events := old(events) + [ConnectionEstablished])
    {
      handshakeReceived := true;
      handshakeReceiveFailureTimer.SetEnable(false);
      connectionEstablished.Set();
      events := events + [ConnectionEstablished];
    }

    /** Restart the heartbeat countdown unless disposing. */
    method DelayHeartbeatTimer()
      requires Valid()
      modifies heartbeatTimer`enabled, heartbeatTimer`restarts
      ensures State() == HeartbeatDelayed(old(State()))
    {
      if !disposing {
        heartbeatTimer.EnableAndReset();
      }
    }

    /**
     * One receive turn: up to 100 whole messages are read and routed as
     * `ReceiveBatch` says; if any arrived, the heartbeat countdown restarts
     * (unless disposing).
     */
    method DealerSocketReceiveReady() returns (ghost messagesReceived: nat)
      requires Valid() && WellFormed(dealerSocket.inbound)
      modifies this`handshakeReceived, this`events, dealerSocket`inbound, connectionEstablished,
               handshakeReceiveFailureTimer`enabled, handshakeReceiveFailureTimer`restarts,
               heartbeatTimer`enabled, heartbeatTimer`restarts
      ensures Valid()
      ensures var b := ReceiveBatch(old(dealerSocket.inbound), Received([], false), MaxMessagesToReceiveInBatch, old(Reaction()));
        messagesReceived == b.count && Reaction() == b.reaction && dealerSocket.inbound == b.rest
      ensures Timer(heartbeatTimer) == if messagesReceived != 0 && !disposing then EnableAndReset(old(Timer(heartbeatTimer)))
                                       else old(Timer(heartbeatTimer))
      ensures dealerSocket.sent == old(dealerSocket.sent)
      ensures handshakeReceiveFailureTimer.subscribed == old(handshakeReceiveFailureTimer.subscribed)
      ensures handshakeReceiveFailureTimer.restarts == old(handshakeReceiveFailureTimer.restarts)
    {
      var count := ReceiveMessages();
      messagesReceived := count;
      if count != 0 {
        DelayHeartbeatTimer();
      }
    }

    /** The receive loop of the handler: messages are read and routed until a poll fails or 100 were taken. */
    method ReceiveMessages() returns (count: nat)
      requires Valid() && WellFormed(dealerSocket.inbound)
      modifies this`handshakeReceived, this`events, dealerSocket`inbound, connectionEstablished,
               handshakeReceiveFailureTimer`enabled, handshakeReceiveFailureTimer`restarts
      ensures Valid()
      ensures var b := ReceiveBatch(old(dealerSocket.inbound), Received([], false), MaxMessagesToReceiveInBatch, old(Reaction()));
        count == b.count && Reaction() == b.reaction && dealerSocket.inbound == b.rest
      ensures dealerSocket.sent == old(dealerSocket.sent)
      ensures handshakeReceiveFailureTimer.subscribed == old(handshakeReceiveFailureTimer.subscribed)
      ensures handshakeReceiveFailureTimer.restarts == old(handshakeReceiveFailureTimer.restarts)
    {
      var message := Received([], false);
      ghost var queue, reaction := dealerSocket.inbound, Reaction();
      ghost var budget: nat := MaxMessagesToReceiveInBatch;
      ghost var total := ReceiveBatch(queue, message, budget, reaction);
      ghost var remaining := total;
      count := 0;
      while count < MaxMessagesToReceiveInBatch
        invariant 0 <= count <= MaxMessagesToReceiveInBatch
        invariant Valid() && WellFormed(queue)
        invariant queue == dealerSocket.inbound && reaction == Reaction()
        invariant budget == MaxMessagesToReceiveInBatch - count
        invariant remaining == ReceiveBatch(queue, message, budget, reaction)
        invariant remaining.count + count == total.count
        invariant remaining.reaction == total.reaction && remaining.rest == total.rest
        invariant dealerSocket.sent == old(dealerSocket.sent)
        invariant handshakeReceiveFailureTimer.subscribed == old(handshakeReceiveFailureTimer.subscribed)
        invariant handshakeReceiveFailureTimer.restarts == old(handshakeReceiveFailureTimer.restarts)
        decreases MaxMessagesToReceiveInBatch - count
      {
        var ok, last, numFrames := TryGetNextMessage(dealerSocket, message);
        if !ok {
          BatchStep(queue, message, budget, reaction, Polled(ok, last, numFrames, dealerSocket.inbound));
          break;
        }
        ghost var polled := Polled(ok, last, numFrames, dealerSocket.inbound);
        BatchAdvance(queue, message, budget, reaction, polled);
        ghost var next := ReceiveBatch(polled.rest, last, budget - 1, Route(reaction, last.frame, numFrames));
        queue, message := dealerSocket.inbound, last;
        reaction := Route(reaction, last.frame, numFrames);
        count, budget := count + 1, budget - 1;
        remaining := next;
        RouteMessage(last.frame, numFrames);
      }
    }

    /**
     * The body of the receive loop for one message known by its last frame
     * and frame count: the ack, a heartbeat (ignored), a payload or a
     * padded message, as `Route` says.
     */
    method RouteMessage(last: Frame, numFrames: nat)
      requires Valid()
      modifies this`handshakeReceived, this`events, handshakeReceiveFailureTimer`enabled, handshakeReceiveFailureTimer`restarts,
               connectionEstablished
      ensures Valid()
      ensures Reaction() == Route(old(Reaction()), last, numFrames)
      ensures handshakeReceiveFailureTimer.restarts == old(handshakeReceiveFailureTimer.restarts)
    {
      if numFrames == 2 {
        if IsHandshakeFrame(last) {
          ProcessHandshake();
        } else if !IsHeartbeatFrame(last) {
          events := events + [ServerMessage(last)];
        }
      } else if numFrames > 2 {
        events := events + [PaddedServerMessage(last, numFrames)];
      }
    }

    /**
     * ExecuteIfSendReady with a dealer send as its action: the action sends
     * an empty frame with the more-flag, then `frames`. It runs iff the
     * handshake was received or sending before it is allowed. It raises,
     * sending nothing, when `frames` is empty (the library refuses an empty
     * multipart message) or the socket is disposed; the heartbeat timer is
     * then left as it was. Otherwise the timer is on afterwards, its
     * countdown restarted only if it was off.
     */
    method ExecuteIfSendReady(frames: seq<Frame>) returns (ran: bool, raised: bool)
      requires Valid()
      modifies dealerSocket, heartbeatTimer
      ensures ran <==> handshakeReceived || sendMessagesBeforeHandshake
      ensures raised <==> ran && (frames == [] || dealerSocket.disposed)
      ensures State() == if ran && !raised then old(State()).(sent := old(dealerSocket.sent) + [[EmptyFrame] + frames],
                                                               heartbeat := SetEnable(old(State()).heartbeat, true))
                         else old(State())
      ensures dealerSocket.inbound == old(dealerSocket.inbound)
    {
      ran, raised := handshakeReceived || sendMessagesBeforeHandshake, false;
      if ran {
        if frames == [] {
          raised := true;
        } else {
          var ok := dealerSocket.SendMultipartMessage([EmptyFrame] + frames);
          raised := !ok;
          if ok && !heartbeatTimer.enabled {
            heartbeatTimer.SetEnable(true);
          }
        }
      }
    }

    /** One payload frame (the string and byte-array overloads): an empty frame, then the payload. */
    method SendMessageToServer(payload: Frame) returns (ran: bool, raised: bool)
      requires Valid()
      modifies dealerSocket, heartbeatTimer
      ensures ran <==> handshakeReceived || sendMessagesBeforeHandshake
      ensures raised <==> ran && dealerSocket.disposed
      ensures dealerSocket.sent == if ran && !raised then old(dealerSocket.sent) + [[[], payload]] else old(dealerSocket.sent)
      ensures State() == if ran && !raised then old(State()).(sent := old(dealerSocket.sent) + [[[], payload]],
                                                               heartbeat := SetEnable(old(State()).heartbeat, true))
                         else old(State())
      ensures dealerSocket.inbound == old(dealerSocket.inbound)
    {
      assert [EmptyFrame] + [payload] == [[], payload];
      ran, raised := ExecuteIfSendReady([payload]);
    }

    /** A whole message: an empty frame, then its frames; an empty message raises. */
    method SendMultipartMessageToServer(message: Message) returns (ran: bool, raised: bool)
      requires Valid()
      modifies dealerSocket, heartbeatTimer
      ensures ran <==> handshakeReceived || sendMessagesBeforeHandshake
      ensures raised <==> ran && (message == [] || dealerSocket.disposed)
      ensures dealerSocket.sent == if ran && !raised then old(dealerSocket.sent) + [[EmptyFrame] + message]
                                   else old(dealerSocket.sent)
      ensures State() == if ran && !raised then old(State()).(sent := old(dealerSocket.sent) + [[EmptyFrame] + message],
                                                               heartbeat := SetEnable(old(State()).heartbeat, true))
                         else old(State())
      ensures dealerSocket.inbound == old(dealerSocket.inbound)
    {
      ran, raised := ExecuteIfSendReady(message);
    }

    /** A comment frame then the message (the string-comment overloads). */
    method SendCommentedMessageToServer(comment: Frame, message: Frame) returns (ran: bool, raised: bool)
      requires Valid()
      modifies dealerSocket, heartbeatTimer
      ensures ran <==> handshakeReceived || sendMessagesBeforeHandshake
      ensures raised <==> ran && dealerSocket.disposed
      ensures dealerSocket.sent == if ran && !raised then old(dealerSocket.sent) + [[[], comment, message]]
                                   else old(dealerSocket.sent)
      ensures State() == if ran && !raised then old(State()).(sent := old(dealerSocket.sent) + [[[], comment, message]],
                                                               heartbeat := SetEnable(old(State()).heartbeat, true))
                         else old(State())
      ensures dealerSocket.inbound == old(dealerSocket.inbound)
    {
      assert [EmptyFrame] + [comment, message] == [[], comment, message];
      ran, raised := ExecuteIfSendReady([comment, message]);
    }

    /** A 32-bit comment in network byte order, then the message. */
    method SendIntCommentedMessageToServer(comment: int32, message: Frame) returns (ran: bool, raised: bool)
      requires Valid()
      modifies dealerSocket, heartbeatTimer
      ensures ran <==> handshakeReceived || sendMessagesBeforeHandshake
      ensures raised <==> ran && dealerSocket.disposed
      ensures dealerSocket.sent == if ran && !raised then old(dealerSocket.sent) + [[[], NetworkOrderBytes(comment as int, 4), message]]
                                   else old(dealerSocket.sent)
      ensures State() == if ran && !raised then old(State()).(sent := old(dealerSocket.sent) + [[[], NetworkOrderBytes(comment as int, 4), message]],
                                                               heartbeat := SetEnable(old(State()).heartbeat, true))
                         else old(State())
      ensures dealerSocket.inbound == old(dealerSocket.inbound)
    {
      assert [EmptyFrame] + [NetworkOrderBytes(comment as int, 4), message] == [[], NetworkOrderBytes(comment as int, 4), message];
      ran, raised := ExecuteIfSendReady([NetworkOrderBytes(comment as int, 4), message]);
    }

    /** Whether the connected flag is set. */
    method IsConnected() returns (r: bool)
      requires Valid()
      ensures r == connectionEstablished.Get()
    {
      r := connectionEstablished.IsSet();
    }

    /** Teardown of one timer: disabled, handler unsubscribed, removed from the poller. */
    method DetachTimer(timer: NetTimer)
      modifies timer, poller
      ensures !timer.enabled && !timer.subscribed
      ensures timer.restarts == old(timer.restarts) && timer.intervalMs == old(timer.intervalMs)
      ensures poller.attached == old(poller.attached) - {timer}
      ensures poller.running == old(poller.running) && poller.disposed == old(poller.disposed)
    {
      timer.SetEnable(false);
      timer.SetSubscribed(false);
      poller.Remove(timer);
    }

    /** Log off: the pending type becomes Logout and the handshake is sent. */
    method SendLogOff()
      requires Valid()
      modifies this, dealerSocket, handshakeReceiveFailureTimer
      ensures Valid()
      ensures State() == HandshakeSent(old(State()).(pendingHandshakeType := Logout, sendHandshakeOnConnect := true))
      ensures dealerSocket == old(dealerSocket)
      ensures dealerSocket.inbound == old(dealerSocket.inbound)
      ensures dealerSocket.receiveSubscribed == old(dealerSocket.receiveSubscribed)
      ensures dealerSocket.disposed == old(dealerSocket.disposed)
    {
      pendingHandshakeType := Logout;
      SendHandshake();
    }

    /**
     * Teardown, at most once: mark disposing; stop, unsubscribe and detach
     * both timers; send the logout; drop the socket; stop and dispose the
     * poller only if this client created it. A second call does nothing.
     */
    method Dispose()
      requires Valid()
      modifies this, dealerSocket, poller, heartbeatTimer, handshakeReceiveFailureTimer
      ensures Valid()
      ensures old(disposing) ==>
        State() == old(State()) && poller.attached == old(poller.attached)
        && poller.running == old(poller.running) && poller.disposed == old(poller.disposed)
      ensures !old(disposing) ==>
        State() == old(State()).(
          disposing := true,
          heartbeat := SetEnable(old(State()).heartbeat, false).(subscribed := false),
          pendingHandshakeType := Logout,
          sendHandshakeOnConnect := true,
          // the logout's SendHandshakeInternal turns the (already detached) failure timer's flag back on
          failureTimer := SetEnable(SetEnable(old(State()).failureTimer, false).(subscribed := false), true),
          sent := if old(dealerSocket.disposed) then old(dealerSocket.sent) else old(dealerSocket.sent) + [LogoutMessage],
          socketDisposed := true)
        && poller.attached == old(poller.attached) - {heartbeatTimer, handshakeReceiveFailureTimer, dealerSocket}
        && dealerSocket.disposed && !dealerSocket.receiveSubscribed
        && (createdPoller ==> !poller.running && poller.disposed)
        && (!createdPoller ==> poller.running == old(poller.running) && poller.disposed == old(poller.disposed))
    {
      if !disposing {
        disposing := true;

        DetachTimer(heartbeatTimer);
        DetachTimer(handshakeReceiveFailureTimer);

        SendLogOff();
        ghost var loggedOff := State();

        DisconnectDealerSocket();
        assert State() == loggedOff.(socketDisposed := true);

        if createdPoller {
          poller.Stop();
          poller.Dispose();
        }
      }
    }
  }
}
