/**
 * The server engine (BaseAsyncServer) as a class: the identity registry,
 * the failure set of a broadcast, the callback log, and the router socket,
 * heartbeat timer and poller it drives. Every operation is proved to move
 * the state as the transition of the same name in `ServerSpec` says.
 */
module Server {
  import opened Wrappers
  import opened Bytes
  import opened Transport
  import opened Handshake
  import opened Framing
  import opened Collections
  import opened ServerSpec
  import opened Sequences

  /** The heartbeat period in milliseconds (two seconds). */
  const HeartbeatFrequencyMs: int := 2000

  /** Which error handler a unicast uses. */
  datatype ErrorHandler =
    | SingleRecipient   // evict the identity at once
    | BatchOperation    // remember the identity for eviction after the fan-out

  /** The frames a broadcast of one payload frame carries. */
  function SingleFrame(frame: Frame): seq<Frame>
  {
    AsEnumerable(frame)
  }

  class BaseAsyncServer {
    var clientIdentities: set<Frame>
    var invalidClientIdentities: set<Frame>
    var events: seq<ServerEvent>
    const routerSocket: RouterSocket
    const heartbeatTimer: NetTimer
    const poller: Poller
    const createdPoller: bool
    var watchdogReschedules: nat
    var watchdogDisposed: bool

    /** The registry, the send log and the callback log. */
    function View(): ServerView
      reads this, routerSocket
    {
      ServerView(clientIdentities, routerSocket.attempts, events)
    }

    /** Between calls the failure set of a broadcast is empty. */
    ghost predicate Valid()
      reads this
    {
      invalidClientIdentities == {}
    }

    /**
     * InitSocket then InitPoller: a mandatory router socket (sends to an
     * unknown identity raise), bound unless binding is delayed; an enabled
     * heartbeat timer; both attached to the given poller or to a new running
     * one; the watchdog scheduled once.
     */
    constructor (oracle: Message -> SendOutcome, inbound: seq<Message>, sharedPoller: Poller?,
                 delaySocketInitialization: bool, threadPoolSize: int)
      modifies sharedPoller
      ensures Valid() && clientIdentities == {} && events == []
      ensures routerSocket.oracle == oracle && routerSocket.inbound == inbound && routerSocket.attempts == []
      ensures routerSocket.options.routerMandatory
      ensures routerSocket.options.affinity == if threadPoolSize != 1 then 1 else 0
      ensures routerSocket.bound == !delaySocketInitialization && routerSocket.receiveSubscribed
      ensures !routerSocket.disposed
      ensures heartbeatTimer.enabled && heartbeatTimer.subscribed && heartbeatTimer.intervalMs == HeartbeatFrequencyMs
      ensures createdPoller <==> sharedPoller == null
      ensures sharedPoller == null ==>
        fresh(poller) && poller.running && !poller.disposed && poller.attached == {routerSocket, heartbeatTimer}
      ensures sharedPoller != null ==>
        poller == sharedPoller && poller.attached == old(sharedPoller.attached) + {routerSocket, heartbeatTimer}
        && poller.running == old(sharedPoller.running) && poller.disposed == old(sharedPoller.disposed)
      ensures fresh(routerSocket) && fresh(heartbeatTimer)
      ensures watchdogReschedules == 1 && !watchdogDisposed
    {
      var socket := InitRouterSocket(oracle, inbound, delaySocketInitialization, threadPoolSize);
      var timer := NewHeartbeatTimer();
      var p := AttachToPoller(sharedPoller, socket, timer);

      clientIdentities, invalidClientIdentities, events := {}, {}, [];
      routerSocket, heartbeatTimer, poller := socket, timer, p;
      createdPoller := sharedPoller == null;
      watchdogReschedules, watchdogDisposed := 1, false;
    }

    // ----- registry -----

    /** RemoveClientIdentity. */
    method RemoveClientIdentity(clientIdentity: Frame)
      modifies this`clientIdentities, this`invalidClientIdentities, this`events
      ensures View() == RemoveClient(old(View()), clientIdentity)
      ensures invalidClientIdentities == old(invalidClientIdentities)
    {
      clientIdentities := clientIdentities - {clientIdentity};
      events := events + [ClientDisconnected(|clientIdentities|)];
    }

    /** The single-recipient error handler: evict at once. */
    method ClientErrorSingleRecipient(clientIdentity: Frame)
      modifies this`clientIdentities, this`invalidClientIdentities, this`events
      ensures View() == RemoveClient(old(View()), clientIdentity)
      ensures invalidClientIdentities == old(invalidClientIdentities)
    {
      RemoveClientIdentity(clientIdentity);
    }

    /** The batch error handler: remember the identity for later. */
    method ClientErrorBatchOperation(clientIdentity: Frame)
      modifies this`clientIdentities, this`invalidClientIdentities, this`events
      ensures invalidClientIdentities == old(invalidClientIdentities) + {clientIdentity}
      ensures clientIdentities == old(clientIdentities) && events == old(events)
    {
      invalidClientIdentities := invalidClientIdentities + {clientIdentity};
    }

    /** Evicts the remembered identities in one step and reports once, if there are any. */
    method RemoveInvalidIdentities()
      modifies this`clientIdentities, this`invalidClientIdentities, this`events
      ensures invalidClientIdentities == {}
      ensures clientIdentities == old(clientIdentities) - old(invalidClientIdentities)
      ensures events == old(events) + if old(invalidClientIdentities) != {} then [ClientDisconnected(|clientIdentities|)] else []
    {
      if invalidClientIdentities != {} {
        clientIdentities := clientIdentities - invalidClientIdentities;
        events := events + [ClientDisconnected(|clientIdentities|)];
        invalidClientIdentities := {};
      }
    }

    /**
     * One unicast attempt; a refused send or one that raises goes to the
     * error handler.
     */
    method SendMessageToClientInternalWithHandler(clientIdentity: Frame, messagePayload: seq<Frame>, numFrames: int,
                                                  errorHandler: ErrorHandler)
      modifies this`clientIdentities, this`invalidClientIdentities, this`events, routerSocket`attempts
      ensures routerSocket.attempts == old(routerSocket.attempts) + [IdentityMessage(clientIdentity, messagePayload)]
      ensures routerSocket.Outcomes()(IdentityMessage(clientIdentity, messagePayload)) == Sent ==>
        clientIdentities == old(clientIdentities) && events == old(events)
        && invalidClientIdentities == old(invalidClientIdentities)
      ensures routerSocket.Outcomes()(IdentityMessage(clientIdentity, messagePayload)) != Sent && errorHandler == SingleRecipient ==>
        clientIdentities == old(clientIdentities) - {clientIdentity}
        && events == old(events) + [ClientDisconnected(|clientIdentities|)]
        && invalidClientIdentities == old(invalidClientIdentities)
      ensures routerSocket.Outcomes()(IdentityMessage(clientIdentity, messagePayload)) != Sent && errorHandler == BatchOperation ==>
        clientIdentities == old(clientIdentities) && events == old(events)
        && invalidClientIdentities == old(invalidClientIdentities) + {clientIdentity}
    {
      var outcome := TrySendMessagesToIdentity(routerSocket, clientIdentity, messagePayload, numFrames);
      if outcome != Sent {
        // Refused returns false; Threw is the exception the handler catches.
        match errorHandler
        case SingleRecipient => ClientErrorSingleRecipient(clientIdentity);
        case BatchOperation => ClientErrorBatchOperation(clientIdentity);
      }
    }

    /** AddClientIdentity: register, acknowledge, raise the new-client callback. */
    method AddClientIdentity(clientIdentity: Frame, snapshotRequested: bool)
      modifies this`clientIdentities, this`invalidClientIdentities, this`events, routerSocket`attempts
      ensures View() == AddClient(old(View()), routerSocket.Outcomes(), clientIdentity, snapshotRequested)
      ensures invalidClientIdentities == old(invalidClientIdentities)
    {
      clientIdentities := clientIdentities + {clientIdentity};
      SendMessageToClientInternalWithHandler(clientIdentity, AsEnumerable(HandshakeFrame), 1, SingleRecipient);
      events := events + [NewClientIdentityConnected(clientIdentity, snapshotRequested)];
    }

    method ToggleConnection(clientIdentity: Frame)
      modifies this`clientIdentities, this`invalidClientIdentities, this`events, routerSocket`attempts
      ensures View() == Toggle(old(View()), routerSocket.Outcomes(), clientIdentity)
      ensures invalidClientIdentities == old(invalidClientIdentities)
    {
      var existingClient := clientIdentity in clientIdentities;
      if existingClient {
        RemoveClientIdentity(clientIdentity);
      } else {
        AddClientIdentity(clientIdentity, true);
      }
    }

    /** ProcessHandshake: the sender is the first frame; dispatch on the type at the server offset. */
    method ProcessHandshake(message: Message)
      requires |message| >= 1
      modifies this`clientIdentities, this`invalidClientIdentities, this`events, routerSocket`attempts
      ensures View() == HandshakeStep(old(View()), routerSocket.Outcomes(), message)
      ensures invalidClientIdentities == old(invalidClientIdentities)
    {
      var clientIdentity := message[0];
      var handshakeType := GetHandshakeType(message, ServerFrameOffset);
      match handshakeType
      case ToggleConnection => ToggleConnection(clientIdentity);
      case Logout => RemoveClientIdentity(clientIdentity);
      case LoginWithSnapshot => AddClientIdentity(clientIdentity, true);
      case LoginWithoutSnapshot => AddClientIdentity(clientIdentity, false);
      case None =>
    }

    // ----- receiving -----

    /**
     * One receive turn: up to 500 whole messages are taken off the socket
     * and routed (handshake, payload handler, or dropped); the rest wait for
     * the next turn.
     */
    method MessageReadyToReceive() returns (ghost messageCount: nat)
      requires Valid()
      modifies this`clientIdentities, this`invalidClientIdentities, this`events, routerSocket`inbound, routerSocket`attempts
      ensures Valid()
      ensures messageCount == if |old(routerSocket.inbound)| < MessagesToReceiveInBatch
                              then |old(routerSocket.inbound)| else MessagesToReceiveInBatch
      ensures routerSocket.inbound == old(routerSocket.inbound)[messageCount..]
      ensures View() == ReceiveAll(old(View()), routerSocket.Outcomes(), old(routerSocket.inbound)[..messageCount])
    {
      ghost var queue := routerSocket.inbound;
      var count := 0;
      while count < MessagesToReceiveInBatch && routerSocket.inbound != []
        invariant 0 <= count <= MessagesToReceiveInBatch && count <= |queue|
        invariant routerSocket.inbound == queue[count..]
        invariant View() == ReceiveAll(old(View()), routerSocket.Outcomes(), queue[..count])
        invariant Valid()
        decreases |routerSocket.inbound|
      {
        var message := routerSocket.ReceiveMultipartMessage();
        TakeSnoc(queue, count);
        if IsHandshakeMessage(message, ServerFrameOffset) {
          ProcessHandshake(message);
        } else if |message| >= 3 {
          events := events + [ClientMessage(message)];
        }
        count := count + 1;
      }
      messageCount := count;
    }

    // ----- sending -----

    /**
     * The fan-out of a broadcast: every registered identity is tried once
     * with the batch handler, in the order the set happens to be
     * enumerated (`order`); the registry is not touched, the failures are
     * collected.
     */
    method FanOut(messageFrames: seq<Frame>) returns (ghost order: seq<Frame>)
      requires Valid()
      modifies this`clientIdentities, this`invalidClientIdentities, this`events, routerSocket`attempts
      ensures |order| == |clientIdentities| && (forall id :: id in order <==> id in clientIdentities)
      ensures forall i, j :: 0 <= i < j < |order| ==> order[i] != order[j]
      ensures clientIdentities == old(clientIdentities) && events == old(events)
      ensures invalidClientIdentities == FailedIdentities(clientIdentities, routerSocket.Outcomes(), messageFrames)
      ensures routerSocket.attempts == old(routerSocket.attempts) + Envelopes(order, messageFrames)
    {
      var numFrames := |messageFrames|;
      var identities := EnumerateIdentities(clientIdentities);
      order := identities;
      ghost var visited: set<Frame> := {};
      var i := 0;
      while i < |identities|
        invariant 0 <= i <= |identities| && order == identities
        invariant clientIdentities == old(clientIdentities) && events == old(events)
        invariant forall id :: id in visited <==> id in order[..i]
        invariant routerSocket.attempts == old(routerSocket.attempts) + Envelopes(order[..i], messageFrames)
        invariant invalidClientIdentities == FailedIdentities(visited, routerSocket.Outcomes(), messageFrames)
      {
        var identity := identities[i];
        ghost var sentBefore := routerSocket.attempts;
        SendMessageToClientInternalWithHandler(identity, messageFrames, numFrames, BatchOperation);
        FailedStep(visited, identity, routerSocket.Outcomes(), messageFrames);
        EnvelopesStep(order[..i], identity, messageFrames);
        TakeSnoc(order, i);
        AppendAssoc(old(routerSocket.attempts), Envelopes(order[..i], messageFrames), IdentityMessage(identity, messageFrames));
        visited := visited + {identity};
        i := i + 1;
      }
      TakeAll(order);
      assert visited == clientIdentities;
    }

    /**
     * The broadcast: the fan-out, then the failures evicted together with
     * one disconnect callback.
     */
    method SendMessageToClientsInternal(messageFrames: seq<Frame>) returns (ghost order: seq<Frame>)
      requires Valid()
      modifies this`clientIdentities, this`invalidClientIdentities, this`events, routerSocket`attempts
      ensures Valid()
      ensures |order| == |old(clientIdentities)| && (forall id :: id in order <==> id in old(clientIdentities))
      ensures forall i, j :: 0 <= i < j < |order| ==> order[i] != order[j]
      ensures View() == Broadcast(old(View()), routerSocket.Outcomes(), messageFrames, order)
    {
      order := FanOut(messageFrames);
      RemoveInvalidIdentities();
    }

    /** The broadcast of a single frame (the string and byte-array overloads, and the heartbeat). */
    method SendFrameToClientsInternal(messageFrame: Frame) returns (ghost order: seq<Frame>)
      requires Valid()
      modifies this`clientIdentities, this`invalidClientIdentities, this`events, routerSocket`attempts
      ensures Valid()
      ensures |order| == |old(clientIdentities)| && (forall id :: id in order <==> id in old(clientIdentities))
      ensures forall i, j :: 0 <= i < j < |order| ==> order[i] != order[j]
      ensures View() == Broadcast(old(View()), routerSocket.Outcomes(), [messageFrame], order)
    {
      order := SendMessageToClientsInternal(AsEnumerable(messageFrame));
    }

    /** A commented broadcast: the 64-bit comment in network byte order, then the message. */
    method SendCommentedMessageToClients(comment: int64, message: Frame) returns (ghost order: seq<Frame>)
      requires Valid()
      modifies this`clientIdentities, this`invalidClientIdentities, this`events, routerSocket`attempts
      ensures Valid()
      ensures |order| == |old(clientIdentities)| && (forall id :: id in order <==> id in old(clientIdentities))
      ensures forall i, j :: 0 <= i < j < |order| ==> order[i] != order[j]
      ensures View() == Broadcast(old(View()), routerSocket.Outcomes(), [NetworkOrderBytes(comment as int, 8), message], order)
    {
      order := SendMessageToClientsInternal([NetworkOrderBytes(comment as int, 8), message]);
    }

    /** A commented broadcast with a text comment, sent as its own frame. */
    method SendTextCommentedMessageToClients(comment: Frame, message: Frame) returns (ghost order: seq<Frame>)
      requires Valid()
      modifies this`clientIdentities, this`invalidClientIdentities, this`events, routerSocket`attempts
      ensures Valid()
      ensures |order| == |old(clientIdentities)| && (forall id :: id in order <==> id in old(clientIdentities))
      ensures forall i, j :: 0 <= i < j < |order| ==> order[i] != order[j]
      ensures View() == Broadcast(old(View()), routerSocket.Outcomes(), [comment, message], order)
    {
      order := SendMessageToClientsInternal([comment, message]);
    }

    /**
     * SendMessagesToClientInternal (string and byte-array sequences): each
     * message in its own envelope; a refused send evicts and the loop goes
     * on, a send that raises evicts and ends it.
     */
    method SendMessagesToClientInternal(clientIdentity: Frame, messagesToSend: seq<Frame>)
      modifies this`clientIdentities, this`invalidClientIdentities, this`events, routerSocket`attempts
      ensures View() == SendEach(old(View()), routerSocket.Outcomes(), clientIdentity, messagesToSend)
      ensures invalidClientIdentities == old(invalidClientIdentities)
    {
      var i := 0;
      while i < |messagesToSend|
        invariant 0 <= i <= |messagesToSend|
        invariant SendEach(View(), routerSocket.Outcomes(), clientIdentity, messagesToSend[i..])
               == SendEach(old(View()), routerSocket.Outcomes(), clientIdentity, messagesToSend)
        invariant invalidClientIdentities == old(invalidClientIdentities)
      {
        var message := messagesToSend[i];
        assert messagesToSend[i..][1..] == messagesToSend[i + 1..];
        var outcome := TrySendMessageToIdentity(routerSocket, clientIdentity, message);
        assert [clientIdentity, [], message] == IdentityMessage(clientIdentity, [message]);
        if outcome == Refused {
          ClientErrorSingleRecipient(clientIdentity);
        } else if outcome == Threw {
          ClientErrorSingleRecipient(clientIdentity);
          return;
        }
        i := i + 1;
      }
    }

    /** A whole prepared message to one client, with the single-recipient handler. */
    method SendMessageToClientInternal(clientIdentity: Frame, message: Message)
      modifies this`clientIdentities, this`invalidClientIdentities, this`events, routerSocket`attempts
      ensures View() == SendToClient(old(View()), routerSocket.Outcomes(), clientIdentity, message)
      ensures invalidClientIdentities == old(invalidClientIdentities)
    {
      SendMessageToClientInternalWithHandler(clientIdentity, message, |message|, SingleRecipient);
    }

    /** One frame to one client (the frame, byte-array and string overloads). */
    method SendFrameToClientInternal(clientIdentity: Frame, messageToSend: Frame)
      modifies this`clientIdentities, this`invalidClientIdentities, this`events, routerSocket`attempts
      ensures View() == SendToClient(old(View()), routerSocket.Outcomes(), clientIdentity, [messageToSend])
      ensures invalidClientIdentities == old(invalidClientIdentities)
    {
      SendMessageToClientInternalWithHandler(clientIdentity, AsEnumerable(messageToSend), 1, SingleRecipient);
    }

    /** A heartbeat tick: reschedule the watchdog, then broadcast "HB" through the same fan-out. */
    method HeartbeatTimerElapsed() returns (ghost order: seq<Frame>)
      requires Valid()
      modifies this, routerSocket`attempts
      ensures Valid()
      ensures watchdogReschedules == old(watchdogReschedules) + 1 && watchdogDisposed == old(watchdogDisposed)
      ensures |order| == |old(clientIdentities)| && (forall id :: id in order <==> id in old(clientIdentities))
      ensures forall i, j :: 0 <= i < j < |order| ==> order[i] != order[j]
      ensures View() == Broadcast(old(View()), routerSocket.Outcomes(), [HeartbeatFrame], order)
    {
      watchdogReschedules := watchdogReschedules + 1;
      order := SendFrameToClientsInternal(HeartbeatFrame);
    }

    /** Whether the identity is registered. */
    method CheckValidClient(clientIdentity: Frame) returns (r: bool)
      ensures r <==> clientIdentity in clientIdentities
    {
      r := clientIdentity in clientIdentities;
    }

    /**
     * Teardown, every step running: the watchdog is disposed; the heartbeat
     * timer disabled, unsubscribed and detached; the socket unsubscribed,
     * detached and disposed; the poller stopped and disposed only if this
     * server created it.
     */
    method Dispose()
      modifies this, heartbeatTimer, routerSocket, poller
      ensures watchdogDisposed
      ensures !heartbeatTimer.enabled && !heartbeatTimer.subscribed
      ensures !routerSocket.receiveSubscribed && routerSocket.disposed
      ensures poller.attached == old(poller.attached) - {heartbeatTimer, routerSocket}
      ensures createdPoller ==> !poller.running && poller.disposed
      ensures !createdPoller ==> poller.running == old(poller.running) && poller.disposed == old(poller.disposed)
      ensures View() == old(View())
    {
      watchdogDisposed := true;
      heartbeatTimer.SetEnable(false);
      heartbeatTimer.SetSubscribed(false);
      poller.Remove(heartbeatTimer);
      routerSocket.receiveSubscribed := false;
      poller.Remove(routerSocket);
      routerSocket.disposed := true;
      if createdPoller {
        poller.Stop();
        poller.Dispose();
      }
    }
  }

  /**
   * InitSocket: a fresh router socket in mandatory mode (a send to an
   * unknown identity raises), its affinity set if required, bound unless
   * binding is delayed, with its receive handler subscribed.
   */
  method InitRouterSocket(oracle: Message -> SendOutcome, inbound: seq<Message>, delaySocketBinding: bool,
                          threadPoolSize: int) returns (socket: RouterSocket)
    ensures fresh(socket) && fresh(socket.options)
    ensures socket.oracle == oracle && socket.inbound == inbound && socket.attempts == []
    ensures socket.options.routerMandatory
    ensures socket.options.affinity == if threadPoolSize != 1 then 1 else 0
    ensures socket.bound == !delaySocketBinding && socket.receiveSubscribed && !socket.disposed
  {
    socket := new RouterSocket(oracle, inbound);
    socket.options.routerMandatory := true;
    SetAffinityIfRequired(socket.options, threadPoolSize);
    if !delaySocketBinding {
      socket.bound := true;
    }
    socket.receiveSubscribed := true;
  }

  /** The heartbeat timer of InitPoller: handler subscribed, enabled, two-second period. */
  method NewHeartbeatTimer() returns (timer: NetTimer)
    ensures fresh(timer) && timer.enabled && timer.subscribed && timer.intervalMs == HeartbeatFrequencyMs
  {
    timer := new NetTimer(HeartbeatFrequencyMs);
    timer.SetSubscribed(true);
    timer.SetEnable(true);
  }

  /**
   * The rest of InitPoller: without a poller of the caller's, a new one
   * holding the socket and the timer, started; otherwise both are added to
   * the caller's poller, which is left running or not as it was.
   */
  method AttachToPoller(sharedPoller: Poller?, socket: RouterSocket, timer: NetTimer) returns (p: Poller)
    modifies sharedPoller
    ensures sharedPoller == null ==>
      fresh(p) && p.running && !p.disposed && p.attached == {socket, timer}
    ensures sharedPoller != null ==>
      p == sharedPoller && p.attached == old(sharedPoller.attached) + {socket, timer}
      && p.running == old(sharedPoller.running) && p.disposed == old(sharedPoller.disposed)
  {
    if sharedPoller == null {
      p := new Poller();
      p.Add(socket);
      p.Add(timer);
      p.RunAsync();
    } else {
      p := sharedPoller;
      p.Add(socket);
      p.Add(timer);
    }
  }

  method EnumerateIdentities(identities: set<Frame>) returns (order: seq<Frame>)
    ensures |order| == |identities| && forall id :: id in order <==> id in identities
    ensures forall i, j :: 0 <= i < j < |order| ==> order[i] != order[j]
  {
    var toVisit := identities;
    order := [];
    while toVisit != {}
      invariant toVisit <= identities
      invariant forall id :: id in order <==> id in identities - toVisit
      invariant |order| + |toVisit| == |identities|
      invariant forall i, j :: 0 <= i < j < |order| ==> order[i] != order[j]
      decreases |toVisit|
    {
      var identity :| identity in toVisit;
      DistinctAppend(order, identity);
      order := order + [identity];
      toVisit := toVisit - {identity};
    }
  }

  /** Trying one more identity adds it to the failures iff its send fails. */
  lemma FailedStep(visited: set<Frame>, x: Frame, oracle: Message -> SendOutcome, payload: seq<Frame>)
    ensures FailedIdentities(visited + {x}, oracle, payload)
         == FailedIdentities(visited, oracle, payload) + if oracle(IdentityMessage(x, payload)) != Sent then {x} else {}
  {
  }

  lemma AppendAssoc(a: seq<Message>, b: seq<Message>, m: Message)
    ensures (a + b) + [m] == a + (b + [m])
  {
  }

  lemma EnvelopesStep(order: seq<Frame>, x: Frame, payload: seq<Frame>)
    ensures Envelopes(order + [x], payload) == Envelopes(order, payload) + [IdentityMessage(x, payload)]
  {
    assert (order + [x])[..|order|] == order;
  }

  /** Appending an element not yet present keeps a sequence free of duplicates. */
  lemma DistinctAppend(order: seq<Frame>, x: Frame)
    requires forall i, j :: 0 <= i < j < |order| ==> order[i] != order[j]
    requires x !in order
    ensures forall i, j :: 0 <= i < j < |order| + 1 ==> (order + [x])[i] != (order + [x])[j]
  {
  }
}
