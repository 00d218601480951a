/**
 * Reading one whole message off a dealer socket without waiting
 * (DealerSocketExtensions.TryGetNextMessage). Frames arrive as
 * (frame, has-more) pairs; the transport delivers multipart messages
 * atomically, so once the first frame of a message is there the rest is too.
 */
module DealerReceive {
  import opened Transport

  /** Atomic delivery: the queue never ends in the middle of a message. */
  ghost predicate WellFormed(q: seq<Received>)
  {
    q == [] || !q[|q| - 1].hasMore
  }

  /** Where the message holding frame `i` ends: one past its first frame without the more-flag. */
  function EndFrom(q: seq<Received>, i: nat): (n: nat)
    requires i < |q| && WellFormed(q)
    ensures i < n <= |q|
    ensures !q[n - 1].hasMore
    decreases |q| - i
  {
    if !q[i].hasMore then i + 1 else EndFrom(q, i + 1)
  }

  /** The number of frames of the message at the head of the queue. */
  function MessageEnd(q: seq<Received>): (n: nat)
    requires q != [] && WellFormed(q)
    ensures 1 <= n <= |q|
    ensures !q[n - 1].hasMore
  {
    EndFrom(q, 0)
  }

  /** Every frame between `i` and the end `EndFrom` finds carries the more-flag. */
  lemma {:induction false} EndFromIsFirstLast(q: seq<Received>, i: nat)
    requires i < |q| && WellFormed(q)
    ensures forall j :: i <= j < EndFrom(q, i) - 1 ==> q[j].hasMore
    decreases |q| - i
  {
    if q[i].hasMore {
      EndFromIsFirstLast(q, i + 1);
    }
  }

  /** The message ends at its first frame without the more-flag: every frame before it has the flag. */
  lemma MessageEndIsFirstLast(q: seq<Received>)
    requires q != [] && WellFormed(q)
    ensures forall j :: 0 <= j < MessageEnd(q) - 1 ==> q[j].hasMore
  {
    EndFromIsFirstLast(q, 0);
  }

  /** What one poll does: whether it got a multipart message, the last frame read, the frame count and the frames left. */
  datatype Polled = Polled(ok: bool, message: Received, numFrames: nat, rest: seq<Received>)

  /**
   * The poll: nothing waiting leaves everything alone; a single-frame
   * message is read and dropped (false, count 0); a multipart message is
   * read to its end (true, with its frame count).
   */
  function Poll(q: seq<Received>, message: Received): (p: Polled)
    requires WellFormed(q)
    ensures WellFormed(p.rest)
  {
    if q == [] then Polled(false, message, 0, q)
    else if !q[0].hasMore then Polled(false, q[0], 0, q[1..])
    else
      var n := MessageEnd(q);
      Polled(true, q[n - 1], n, q[n..])
  }

  /**
   * A poll takes exactly one message off the head of the queue (nothing
   * when it is empty) and leaves a well-formed queue; it succeeds iff that
   * message has two or more frames, and then it reports their number and
   * ends on the last one.
   */
  lemma {:induction false} PollTakesOneMessage(q: seq<Received>, message: Received)
    requires WellFormed(q)
    ensures var p := Poll(q, message);
      WellFormed(p.rest)
      && (q == [] ==> p == Polled(false, message, 0, []))
      && (q != [] ==> |p.rest| < |q| && q == q[..MessageEnd(q)] + p.rest)
      && (p.ok <==> q != [] && MessageEnd(q) >= 2)
      && (p.ok ==> p.numFrames == MessageEnd(q) && p.message == q[p.numFrames - 1] && !p.message.hasMore)
      && (!p.ok ==> p.numFrames == 0)
  {
    if q != [] {
      var n := MessageEnd(q);
      assert q == q[..n] + q[n..];
      if !q[0].hasMore {
        assert n == 1;
      } else {
        assert n >= 2;
      }
    }
  }

  /** A successful poll always reports at least two frames. */
  lemma PollCountsAtLeastTwo(q: seq<Received>, message: Received)
    requires WellFormed(q)
    ensures Poll(q, message).ok ==> Poll(q, message).numFrames >= 2
  {
    if q != [] && q[0].hasMore {
      var n := MessageEnd(q);
      assert q[0].hasMore && !q[n - 1].hasMore;
    }
  }

  /**
   * The extension method: try one frame without waiting; if it has more,
   * keep reading (blocking, but the rest is already there) to the end of
   * the message, counting frames.
   */
  method TryGetNextMessage(socket: DealerSocket, message: Received) returns (ok: bool, last: Received, numFrames: nat)
    requires WellFormed(socket.inbound)
    modifies socket`inbound
    ensures Poll(old(socket.inbound), message) == Polled(ok, last, numFrames, socket.inbound)
    ensures WellFormed(socket.inbound)
  {
    ghost var q := socket.inbound;
    numFrames := 0;
    var received;
    received, last := socket.TryReceive(message);
    if received && last.hasMore {
      numFrames := numFrames + 1;
      ghost var n := MessageEnd(q);
      MessageEndIsFirstLast(q);
      while last.hasMore
        invariant 1 <= numFrames <= n
        invariant socket.inbound == q[numFrames..]
        invariant last == q[numFrames - 1]
        decreases n - numFrames
      {
        last := socket.Receive();
        numFrames := numFrames + 1;
      }
      return true, last, numFrames;
    }
    return false, last, 0;
  }
}
