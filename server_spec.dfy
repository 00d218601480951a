/**
 * The server registry engine (BaseAsyncServer) as transitions over a pure
 * view: the set of connected identities, the log of messages handed to the
 * router socket, and the log of callbacks raised. The class in `Server`
 * is proved to move its state exactly as these functions say.
 */
module ServerSpec {
  import opened Bytes
  import opened Transport
  import opened Handshake
  import opened Framing

  /** The callbacks the engine raises, in the order it raises them. */
  datatype ServerEvent =
    | NewClientIdentityConnected(identity: Frame, snapshotRequested: bool)
    | ClientDisconnected(numRemainingClients: nat)
    | ClientMessage(message: Message)   // the payload handler, given the whole message

  datatype ServerView = ServerView(clients: set<Frame>, attempts: seq<Message>, events: seq<ServerEvent>)

  /** One receive turn handles at most this many messages. */
  const MessagesToReceiveInBatch: nat := 500

  /** RemoveClientIdentity: remove (a no-op if absent), then report the remaining count. */
  function RemoveClient(v: ServerView, identity: Frame): (r: ServerView)
    ensures identity !in r.clients && r.clients <= v.clients && r.clients + {identity} >= v.clients
    ensures r.attempts == v.attempts && v.events < r.events
  {
    var remaining := v.clients - {identity};
    v.(clients := remaining, events := v.events + [ClientDisconnected(|remaining|)])
  }

  /**
   * A unicast with the single-recipient error handler: one attempt with
   * the envelope; if the send is refused or raises, the identity is
   * evicted at once.
   */
  function SendToClient(v: ServerView, oracle: Message -> SendOutcome, identity: Frame, payload: seq<Frame>): (r: ServerView)
    ensures r.attempts == v.attempts + [IdentityMessage(identity, payload)]
    ensures r.clients - {identity} == v.clients - {identity}
    ensures identity in r.clients <==> identity in v.clients && oracle(IdentityMessage(identity, payload)) == Sent
    ensures v.events <= r.events
  {
    var envelope := IdentityMessage(identity, payload);
    var sent := v.(attempts := v.attempts + [envelope]);
    if oracle(envelope) == Sent then sent else RemoveClient(sent, identity)
  }

  /** AddClientIdentity: add, acknowledge with "HS", then raise the new-client callback. */
  function AddClient(v: ServerView, oracle: Message -> SendOutcome, identity: Frame, snapshotRequested: bool): (r: ServerView)
    ensures r.clients - {identity} == v.clients - {identity}
    ensures identity in r.clients <==> oracle(IdentityMessage(identity, [HandshakeFrame])) == Sent
    ensures |r.attempts| == |v.attempts| + 1 && v.attempts <= r.attempts
    ensures v.events < r.events && r.events[|r.events| - 1] == NewClientIdentityConnected(identity, snapshotRequested)
  {
    var acked := SendToClient(v.(clients := v.clients + {identity}), oracle, identity, [HandshakeFrame]);
    acked.(events := acked.events + [NewClientIdentityConnected(identity, snapshotRequested)])
  }

  /** ToggleConnection: a present identity is removed, an absent one logs in with a snapshot. */
  function Toggle(v: ServerView, oracle: Message -> SendOutcome, identity: Frame): (r: ServerView)
    ensures r.clients - {identity} == v.clients - {identity}
    ensures identity in v.clients ==> identity !in r.clients && r.attempts == v.attempts
    ensures identity !in v.clients ==> (identity in r.clients <==> oracle(IdentityMessage(identity, [HandshakeFrame])) == Sent)
    ensures v.attempts <= r.attempts && v.events <= r.events
  {
    if identity in v.clients then RemoveClient(v, identity) else AddClient(v, oracle, identity, true)
  }

  /** ProcessHandshake: dispatch on the handshake type read at the server offset; the sender is the first frame. */
  function HandshakeStep(v: ServerView, oracle: Message -> SendOutcome, message: Message): (r: ServerView)
    requires |message| >= 1
    ensures r.clients - {message[0]} == v.clients - {message[0]}
    ensures v.attempts <= r.attempts && |r.attempts| <= |v.attempts| + 1 && v.events <= r.events
  {
    var identity := message[0];
    match GetHandshakeType(message, ServerFrameOffset)
    case ToggleConnection => Toggle(v, oracle, identity)
    case Logout => RemoveClient(v, identity)
    case LoginWithSnapshot => AddClient(v, oracle, identity, true)
    case LoginWithoutSnapshot => AddClient(v, oracle, identity, false)
    case None => v
  }

  /** One received message: a handshake, a payload for the handler (three frames or more), or dropped. */
  function ReceiveStep(v: ServerView, oracle: Message -> SendOutcome, message: Message): (r: ServerView)
    ensures !IsHandshakeMessage(message, ServerFrameOffset) ==> r.clients == v.clients && r.attempts == v.attempts
    ensures v.attempts <= r.attempts && |r.attempts| <= |v.attempts| + 1 && v.events <= r.events
  {
    if IsHandshakeMessage(message, ServerFrameOffset) then HandshakeStep(v, oracle, message)
    else if |message| >= 3 then v.(events := v.events + [ClientMessage(message)])
    else v
  }

  /** The received messages handled in order. */
  function ReceiveAll(v: ServerView, oracle: Message -> SendOutcome, messages: seq<Message>): (r: ServerView)
    ensures v.attempts <= r.attempts && |r.attempts| <= |v.attempts| + |messages| && v.events <= r.events
  {
    if messages == [] then v
    else ReceiveStep(ReceiveAll(v, oracle, messages[..|messages| - 1]), oracle, messages[|messages| - 1])
  }

  /** The identities whose send of the broadcast payload is refused or raises. */
  function FailedIdentities(clients: set<Frame>, oracle: Message -> SendOutcome, payload: seq<Frame>): (failed: set<Frame>)
    ensures failed <= clients
  {
    set identity | identity in clients && oracle(IdentityMessage(identity, payload)) != Sent
  }

  /** The envelopes of a broadcast, one per identity in the order they were tried. */
  function Envelopes(order: seq<Frame>, payload: seq<Frame>): (ms: seq<Message>)
    ensures |ms| == |order|
  {
    if order == [] then [] else Envelopes(order[..|order| - 1], payload) + [IdentityMessage(order[|order| - 1], payload)]
  }

  /**
   * The two-phase broadcast: every identity is tried once (in `order`),
   * the failures are evicted together afterwards, and one disconnect
   * callback reports the remaining count iff anything failed.
   */
  function Broadcast(v: ServerView, oracle: Message -> SendOutcome, payload: seq<Frame>, order: seq<Frame>): (r: ServerView)
    ensures r.clients <= v.clients
    ensures v.attempts <= r.attempts && |r.attempts| == |v.attempts| + |order|
    ensures v.events <= r.events && |r.events| <= |v.events| + 1
  {
    var failed := FailedIdentities(v.clients, oracle, payload);
    var remaining := v.clients - failed;
    ServerView(remaining, v.attempts + Envelopes(order, payload),
      v.events + if failed != {} then [ClientDisconnected(|remaining|)] else [])
  }

  /**
   * SendMessagesToClientInternal: one single-frame message per payload, to
   * one identity. A refused send evicts the identity and the loop goes on;
   * a send that raises evicts it and ends the loop.
   */
  function SendEach(v: ServerView, oracle: Message -> SendOutcome, identity: Frame, messages: seq<Frame>): (r: ServerView)
    ensures |v.attempts| <= |r.attempts| <= |v.attempts| + |messages|
    decreases |messages|
  {
    if messages == [] then v
    else
      var envelope := IdentityMessage(identity, [messages[0]]);
      var sent := v.(attempts := v.attempts + [envelope]);
      match oracle(envelope)
      case Sent => SendEach(sent, oracle, identity, messages[1..])
      case Refused => SendEach(RemoveClient(sent, identity), oracle, identity, messages[1..])
      case Threw => RemoveClient(sent, identity)
  }

  // ----- properties -----

  /**
   * A login adds the identity, sends exactly one ack [identity, empty, "HS"]
   * and then raises the new-client callback with the requested snapshot
   * flag. If the ack fails, the identity is evicted again and its
   * disconnect callback comes first, yet the new-client callback is still
   * raised.
   */
  lemma LoginEffects(v: ServerView, oracle: Message -> SendOutcome, identity: Frame, snapshotRequested: bool)
    ensures var r := AddClient(v, oracle, identity, snapshotRequested);
      var ack := [identity, [], HandshakeFrame];
      r.attempts == v.attempts + [ack]
      && (oracle(ack) == Sent ==>
            r.clients == v.clients + {identity}
            && r.events == v.events + [NewClientIdentityConnected(identity, snapshotRequested)])
      && (oracle(ack) != Sent ==>
            r.clients == v.clients - {identity}
            && r.events == v.events + [ClientDisconnected(|v.clients - {identity}|),
                                       NewClientIdentityConnected(identity, snapshotRequested)])
  {
    assert IdentityMessage(identity, [HandshakeFrame]) == [identity, [], HandshakeFrame];
    assert (v.clients + {identity}) - {identity} == v.clients - {identity};
  }

  /** A logout removes the identity (nothing else) and reports the registry's size after the removal. */
  lemma LogoutReportsRemaining(v: ServerView, identity: Frame)
    ensures var r := RemoveClient(v, identity);
      identity !in r.clients && r.clients + {identity} >= v.clients && r.clients <= v.clients
      && r.attempts == v.attempts
      && r.events == v.events + [ClientDisconnected(|r.clients|)]
      && |r.clients| == if identity in v.clients then |v.clients| - 1 else |v.clients|
  {
    if identity in v.clients {
      assert v.clients == (v.clients - {identity}) + {identity};
    } else {
      assert v.clients - {identity} == v.clients;
    }
  }

  /** With both acks delivered, toggling an identity twice restores the original membership. */
  lemma ToggleTwiceRestores(v: ServerView, oracle: Message -> SendOutcome, identity: Frame)
    requires oracle([identity, [], HandshakeFrame]) == Sent
    ensures Toggle(Toggle(v, oracle, identity), oracle, identity).clients == v.clients
  {
    LoginEffects(v, oracle, identity, true);
    var once := Toggle(v, oracle, identity);
    if identity in v.clients {
      LoginEffects(once, oracle, identity, true);
      assert (v.clients - {identity}) + {identity} == v.clients;
    } else {
      assert (v.clients + {identity}) - {identity} == v.clients;
    }
  }

  /**
   * The type None leaves everything unchanged, and a message the receive
   * loop routes to the handshake path never has type None there: it has
   * at least three frames.
   */
  lemma NoneHandshakeChangesNothing(v: ServerView, oracle: Message -> SendOutcome, message: Message)
    requires |message| >= 1
    ensures GetHandshakeType(message, ServerFrameOffset) == None ==> HandshakeStep(v, oracle, message) == v
    ensures IsHandshakeMessage(message, ServerFrameOffset) ==> GetHandshakeType(message, ServerFrameOffset) != None
  {
  }

  /**
   * Receive routing: a handshake can change the membership of its sender
   * (the first frame) only and sends at most one ack; any other message of
   * three frames or more goes to the payload handler unchanged; anything
   * shorter is dropped.
   */
  lemma ReceiveRouting(v: ServerView, oracle: Message -> SendOutcome, message: Message)
    ensures var r := ReceiveStep(v, oracle, message);
      (IsHandshakeMessage(message, ServerFrameOffset) ==>
          r.clients - {message[0]} == v.clients - {message[0]}
          && (r.attempts == v.attempts || r.attempts == v.attempts + [[message[0], [], HandshakeFrame]]))
      && (!IsHandshakeMessage(message, ServerFrameOffset) && |message| >= 3 ==>
          r == v.(events := v.events + [ClientMessage(message)]))
      && (|message| < 3 ==> r == v)
  {
    if IsHandshakeMessage(message, ServerFrameOffset) {
      var id := message[0];
      LoginEffects(v, oracle, id, true);
      LoginEffects(v, oracle, id, false);
      LogoutReportsRemaining(v, id);
    }
  }

  /** The senders of the handshakes among the messages. */
  function HandshakeSenders(messages: seq<Message>): set<Frame>
  {
    set k | 0 <= k < |messages| && IsHandshakeMessage(messages[k], ServerFrameOffset) :: messages[k][0]
  }

  /** A whole receive turn changes the membership only of identities that sent a handshake in it. */
  lemma {:induction false} ReceiveAllTouchesOnlySenders(v: ServerView, oracle: Message -> SendOutcome, messages: seq<Message>)
    ensures ReceiveAll(v, oracle, messages).clients - HandshakeSenders(messages)
         == v.clients - HandshakeSenders(messages)
  {
    if messages != [] {
      var init, last := messages[..|messages| - 1], messages[|messages| - 1];
      ReceiveAllTouchesOnlySenders(v, oracle, init);
      var mid := ReceiveAll(v, oracle, init);
      ReceiveRouting(mid, oracle, last);
      var s, s0 := HandshakeSenders(messages), HandshakeSenders(init);
      assert s0 <= s by {
        forall x | x in s0 ensures x in s {
          var k :| 0 <= k < |init| && IsHandshakeMessage(init[k], ServerFrameOffset) && init[k][0] == x;
          assert messages[k] == init[k];
        }
      }
      var r := ReceiveAll(v, oracle, messages);
      if IsHandshakeMessage(last, ServerFrameOffset) {
        assert messages[|messages| - 1] == last;
        assert last[0] in s;
      }
      forall x | x !in s ensures x in r.clients <==> x in v.clients {
        assert x !in s0;
        assert x in mid.clients - s0 <==> x in v.clients - s0;
      }
    }
  }

  /**
   * After a broadcast the registry is the old one minus exactly the failed
   * identities, whatever the order they were tried in, and a failure
   * produces exactly one disconnect callback, reporting the registry's
   * size after the evictions.
   */
  lemma BroadcastEvicts(v: ServerView, oracle: Message -> SendOutcome, payload: seq<Frame>, order: seq<Frame>)
    ensures var r := Broadcast(v, oracle, payload, order);
      var failed := FailedIdentities(v.clients, oracle, payload);
      (forall id :: id in r.clients <==> id in v.clients && oracle(IdentityMessage(id, payload)) == Sent)
      && |r.clients| == |v.clients| - |failed|
      && |r.events| == |v.events| + (if failed == {} then 0 else 1)
      && r.events == v.events + (if failed == {} then [] else [ClientDisconnected(|r.clients|)])
      && (failed == {} ==> r.clients == v.clients)
  {
    var failed := FailedIdentities(v.clients, oracle, payload);
    assert v.clients == (v.clients - failed) + failed;
  }

  /** The single-frame envelopes of the messages, in order. */
  function Singles(identity: Frame, messages: seq<Frame>): (ms: seq<Message>)
    ensures |ms| == |messages|
  {
    seq(|messages|, k requires 0 <= k < |messages| => IdentityMessage(identity, [messages[k]]))
  }

  /**
   * Sending several single-frame messages to one identity attempts a prefix
   * of them in order, each in its own envelope.
   */
  lemma SinglesCons(identity: Frame, first: Frame, rest: seq<Frame>)
    ensures Singles(identity, [first] + rest) == [IdentityMessage(identity, [first])] + Singles(identity, rest)
  {
    var ms := [first] + rest;
    assert forall k | 1 <= k < |ms| :: ms[k] == rest[k - 1];
  }

  lemma {:induction false} SendEachAttemptsPrefix(v: ServerView, oracle: Message -> SendOutcome, identity: Frame, messages: seq<Frame>)
    ensures var r := SendEach(v, oracle, identity, messages);
      r.attempts == v.attempts + Singles(identity, messages[..|r.attempts| - |v.attempts|])
    decreases |messages|
  {
    if messages != [] {
      var envelope := IdentityMessage(identity, [messages[0]]);
      var sent := v.(attempts := v.attempts + [envelope]);
      if oracle(envelope) != Threw {
        var next := if oracle(envelope) == Refused then RemoveClient(sent, identity) else sent;
        SendEachAttemptsPrefix(next, oracle, identity, messages[1..]);
        var n := |SendEach(next, oracle, identity, messages[1..]).attempts| - |next.attempts|;
        assert messages[..n + 1] == [messages[0]] + messages[1..][..n];
        SinglesCons(identity, messages[0], messages[1..][..n]);
      } else {
        assert messages[..1] == [messages[0]];
      }
    }
  }

  /** Unless a send raises, every message is attempted. */
  lemma {:induction false} SendEachCompletes(v: ServerView, oracle: Message -> SendOutcome, identity: Frame, messages: seq<Frame>)
    requires forall m :: m in messages ==> oracle(IdentityMessage(identity, [m])) != Threw
    ensures |SendEach(v, oracle, identity, messages).attempts| == |v.attempts| + |messages|
    decreases |messages|
  {
    if messages != [] {
      var envelope := IdentityMessage(identity, [messages[0]]);
      var sent := v.(attempts := v.attempts + [envelope]);
      var next := if oracle(envelope) == Refused then RemoveClient(sent, identity) else sent;
      assert forall m :: m in messages[1..] ==> m in messages;
      SendEachCompletes(next, oracle, identity, messages[1..]);
    }
  }

  /**
   * SendEach changes no other identity's membership, and afterwards the
   * identity is registered iff it was and every attempted send was delivered.
   */
  lemma {:induction false} SendEachEvicts(v: ServerView, oracle: Message -> SendOutcome, identity: Frame, messages: seq<Frame>)
    ensures var r := SendEach(v, oracle, identity, messages);
      var n := |r.attempts| - |v.attempts|;
      r.clients - {identity} == v.clients - {identity}
      && (identity in r.clients <==>
            identity in v.clients && forall k :: 0 <= k < n ==> oracle(IdentityMessage(identity, [messages[k]])) == Sent)
    decreases |messages|
  {
    if messages != [] {
      var envelope := IdentityMessage(identity, [messages[0]]);
      var sent := v.(attempts := v.attempts + [envelope]);
      if oracle(envelope) != Threw {
        var next := if oracle(envelope) == Refused then RemoveClient(sent, identity) else sent;
        SendEachEvicts(next, oracle, identity, messages[1..]);
        assert forall k :: 1 <= k < |messages| ==> messages[1..][k - 1] == messages[k];
      }
    }
  }

  /** How many of the single-frame sends of `messages` to `identity` are not delivered. */
  function FailedSends(oracle: Message -> SendOutcome, identity: Frame, messages: seq<Frame>): (n: nat)
    ensures n <= |messages|
  {
    if messages == [] then 0
    else (if oracle(IdentityMessage(identity, [messages[0]])) != Sent then 1 else 0)
         + FailedSends(oracle, identity, messages[1..])
  }

  /**
   * SendEach raises one disconnect callback per attempted send that was
   * not delivered (refused or raising), after the earlier callbacks.
   */
  lemma {:induction false} SendEachReportsEachFailure(v: ServerView, oracle: Message -> SendOutcome, identity: Frame, messages: seq<Frame>)
    ensures var r := SendEach(v, oracle, identity, messages);
      var n := |r.attempts| - |v.attempts|;
      0 <= n <= |messages|
      && v.events <= r.events
      && |r.events| == |v.events| + FailedSends(oracle, identity, messages[..n])
    decreases |messages|
  {
    if messages != [] {
      var envelope := IdentityMessage(identity, [messages[0]]);
      var sent := v.(attempts := v.attempts + [envelope]);
      var r := SendEach(v, oracle, identity, messages);
      if oracle(envelope) != Threw {
        var next := if oracle(envelope) == Refused then RemoveClient(sent, identity) else sent;
        SendEachReportsEachFailure(next, oracle, identity, messages[1..]);
        var n := |r.attempts| - |v.attempts|;
        assert messages[..n][1..] == messages[1..][..n - 1];
      } else {
        assert messages[..1][1..] == [];
      }
    }
  }
}
