/**
 * The message-socket library the engines sit on, reduced to the state the
 * engines read and change: a scheduler (poller) with the items attached to
 * it, timers with their enable flag, a router socket whose send results
 * come from an oracle, and a dealer socket whose inbound side is a queue of
 * (frame, has-more) pairs. Nothing here stands for a source file of the
 * repository; it is the interface the core uses.
 */
module Transport {
  import opened Bytes

  /** An ordered sequence of frames sent or received atomically. */
  type Message = seq<Frame>

  /** What one send attempt on the router socket did. */
  datatype SendOutcome =
    | Sent      // queued for the peer: the send returned true
    | Refused   // could not be queued: the send returned false
    | Threw     // the send raised (an unroutable identity, the socket being mandatory)

  /** One frame taken from a socket, with the flag saying whether more frames of the same message follow. */
  datatype Received = Received(frame: Frame, hasMore: bool)

  /** The single-threaded scheduler: what is attached to it, whether it runs, whether it is disposed. */
  class Poller {
    var attached: set<object>
    var running: bool
    var disposed: bool

    constructor ()
      ensures attached == {} && !running && !disposed
    {
      attached, running, disposed := {}, false, false;
    }

    method Add(item: object)
      modifies this`attached
      ensures attached == old(attached) + {item}
    {
      attached := attached + {item};
    }

    method Remove(item: object)
      modifies this`attached
      ensures attached == old(attached) - {item}
    {
      attached := attached - {item};
    }

    method RunAsync()
      modifies this`running
      ensures running
    {
      running := true;
    }

    method Stop()
      modifies this`running
      ensures !running
    {
      running := false;
    }

    /** Disposing a poller also stops it. */
    method Dispose()
      modifies this`running, this`disposed
      ensures !running && disposed
    {
      running, disposed := false, true;
    }
  }

  /**
   * A scheduler timer. Only its flags are kept: whether it is enabled, how
   * many times its countdown was restarted, its interval in milliseconds and
   * whether the owner's elapsed handler is subscribed.
   */
  class NetTimer {
    var enabled: bool
    var restarts: nat
    var intervalMs: int
    var subscribed: bool

    constructor (intervalMs: int)
      ensures !enabled && restarts == 0 && this.intervalMs == intervalMs && !subscribed
    {
      enabled, restarts, this.intervalMs, subscribed := false, 0, intervalMs, false;
    }

    /** The Enable setter: turning a disabled timer on restarts its countdown; any other write only stores the flag. */
    method SetEnable(value: bool)
      modifies this`enabled, this`restarts
      ensures enabled == value
      ensures restarts == if value && !old(enabled) then old(restarts) + 1 else old(restarts)
    {
      if value && !enabled {
        restarts := restarts + 1;
      }
      enabled := value;
    }

    /** Enables the timer and always restarts its countdown. */
    method EnableAndReset()
      modifies this`enabled, this`restarts
      ensures enabled && restarts == old(restarts) + 1
    {
      enabled, restarts := true, restarts + 1;
    }

    /**
     * The Interval setter: stores the interval and recomputes the due time
     * from now, so an enabled timer's countdown restarts; a disabled timer
     * has no countdown to restart.
     */
    method SetInterval(ms: int)
      modifies this`intervalMs, this`restarts
      ensures intervalMs == ms
      ensures restarts == if enabled then old(restarts) + 1 else old(restarts)
    {
      intervalMs := ms;
      if enabled {
        restarts := restarts + 1;
      }
    }

    method SetSubscribed(value: bool)
      modifies this`subscribed
      ensures subscribed == value
    {
      subscribed := value;
    }
  }

  /** Socket options the core writes. */
  class SocketOptions {
    var affinity: int
    var routerMandatory: bool

    constructor ()
      ensures affinity == 0 && !routerMandatory
    {
      affinity, routerMandatory := 0, false;
    }
  }

  /**
   * The server's router socket. `oracle` says what a send of a given
   * message does while the socket is open; once it is disposed every send
   * raises (`Outcomes`). `attempts` logs every message handed to the socket
   * for sending, in order (the delivered ones are those whose outcome is
   * Sent); `inbound` holds the whole messages waiting to be received.
   */
  class RouterSocket {
    const oracle: Message -> SendOutcome
    const options: SocketOptions
    var attempts: seq<Message>
    var inbound: seq<Message>
    var bound: bool
    var receiveSubscribed: bool
    var disposed: bool

    constructor (oracle: Message -> SendOutcome, inbound: seq<Message>)
      ensures this.oracle == oracle && fresh(options)
      ensures attempts == [] && this.inbound == inbound
      ensures !bound && !receiveSubscribed && !disposed
      ensures options.affinity == 0 && !options.routerMandatory
    {
      this.oracle := oracle;
      options := new SocketOptions();
      attempts, this.inbound := [], inbound;
      bound, receiveSubscribed, disposed := false, false, false;
    }

    /** What a send of each message does now: the oracle's answer, or a raise once the socket is disposed. */
    function Outcomes(): (outcomes: Message -> SendOutcome)
      reads this`disposed
      ensures disposed ==> forall m :: outcomes(m) == Threw
      ensures !disposed ==> forall m :: outcomes(m) == oracle(m)
    {
      if disposed then _ => Threw else oracle
    }

    /** One send attempt; the transport's answer is `Outcomes`'s. */
    method TrySendMultipartMessage(message: Message) returns (outcome: SendOutcome)
      modifies this`attempts
      ensures outcome == Outcomes()(message)
      ensures attempts == old(attempts) + [message]
    {
      attempts := attempts + [message];
      outcome := if disposed then Threw else oracle(message);
    }

    /** Takes the next whole message off the inbound side. */
    method ReceiveMultipartMessage() returns (message: Message)
      requires inbound != []
      modifies this`inbound
      ensures message == old(inbound)[0] && inbound == old(inbound)[1..]
    {
      message := inbound[0];
      inbound := inbound[1..];
    }
  }

  /**
   * A client's dealer socket: its identity, the frames waiting to be read,
   * the messages it has sent, and its subscription/disposal flags.
   */
  class DealerSocket {
    const identity: Frame
    var inbound: seq<Received>
    var sent: seq<Message>
    var receiveSubscribed: bool
    var disposed: bool

    constructor (identity: Frame, inbound: seq<Received>)
      ensures this.identity == identity && this.inbound == inbound
      ensures sent == [] && !receiveSubscribed && !disposed
    {
      this.identity, this.inbound := identity, inbound;
      sent, receiveSubscribed, disposed := [], false, false;
    }

    /** Takes the next frame if one is waiting, without blocking; otherwise leaves `message` as it was. */
    method TryReceive(message: Received) returns (received: bool, next: Received)
      modifies this`inbound
      ensures received <==> old(inbound) != []
      ensures received ==> next == old(inbound)[0] && inbound == old(inbound)[1..]
      ensures !received ==> next == message && inbound == old(inbound)
    {
      if inbound == [] {
        return false, message;
      }
      received, next := true, inbound[0];
      inbound := inbound[1..];
    }

    /** Blocks until a frame is waiting, then takes it; the model only calls it when one is. */
    method Receive() returns (next: Received)
      requires inbound != []
      modifies this`inbound
      ensures next == old(inbound)[0] && inbound == old(inbound)[1..]
    {
      next := inbound[0];
      inbound := inbound[1..];
    }

    /**
     * A blocking multipart send: the dealer queues it. On a disposed socket
     * the send raises instead (`ok` is false) and nothing is queued.
     */
    method SendMultipartMessage(message: Message) returns (ok: bool)
      modifies this`sent
      ensures ok <==> !disposed
      ensures sent == if disposed then old(sent) else old(sent) + [message]
    {
      ok := !disposed;
      if ok {
        sent := sent + [message];
      }
    }
  }
}
