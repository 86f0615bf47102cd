/** The control client as an object: each method takes exactly the specified step. */
module IpcClients {
  import opened IpcSpec
  import opened Strings
  import opened Wrappers

  class IpcClient {
    var buffer: string
    var nextId: nat
    var pending: set<nat>
    var closed: bool
    var handshake: Handshake
    // Requests that wait for the handshake, what went out on the socket, and how the
    // requests' promises ended.
    var waiting: seq<Call>
    var written: seq<Written>
    var settled: seq<Settlement>
    // Requests whose reply raised before their promise could be rejected.
    ghost var lost: set<nat>

    ghost function State(): Client
      reads this
    {
      Client(buffer, nextId, pending, closed, handshake, waiting, written, settled, lost)
    }

    constructor ()
      ensures State() == FRESH
    {
      buffer, nextId, pending, closed := "", 1, {}, false;
      handshake, waiting, written, settled, lost := NotStarted, [], [], [], {};
    }

    method SendRequest(call: Call)
      modifies this
      ensures State() == Send(old(State()), call)
    {
      if closed { return; }
      var id := nextId;
      nextId := nextId + 1;
      if call.printable {
        pending := pending + {id};
        written := written + [Written(id, call.name)];
      }
    }

    /** A business request: it queues behind the handshake, which the first one starts. */
    method Request(call: Call)
      modifies this
      ensures State() == Requested(old(State()), call)
    {
      if handshake == NotStarted {
        if closed {
          handshake := Failed;
        } else {
          SendRequest(Call(PING, true));
          handshake := Pinging;
        }
      }
      waiting := waiting + [call];
    }

    /** The oldest waiting request goes on, once the handshake has ended. */
    method ResumeRequest()
      modifies this
      ensures State() == RequestResumed(old(State()))
    {
      if waiting != [] && handshake in {Ready, Failed} {
        var call := waiting[0];
        waiting := waiting[1..];
        if handshake == Ready { SendRequest(call); }
      }
    }

    method Settle(id: nat, outcome: Outcome)
      modifies this
      ensures State() == SettledAs(old(State()), id, outcome)
    {
      if id in pending {
        pending := pending - {id};
        settled := settled + [Settlement(id, outcome)];
      }
    }

    /** Reject every pending request, in the order of issue. */
    method SettlePending()
      modifies this
      ensures State() == AllDropped(old(State()))
    {
      closed := true;
      var id := 0;
      while id < nextId
        invariant id <= nextId
        invariant State() == DroppedBelow(old(State()).(closed := true), id)
        invariant nextId == old(nextId)
      {
        Settle(id, Dropped);
        id := id + 1;
      }
    }

    method FailClosed()
      modifies this
      ensures State() == FailedClosed(old(State()))
    {
      if !closed { SettlePending(); }
    }

    method Close()
      modifies this
      ensures State() == FailedClosed(old(State()))
    {
      if !closed { SettlePending(); }
    }

    method SocketFails()
      modifies this
      ensures State() == AllDropped(old(State()))
    {
      SettlePending();
    }

    method Timeout(id: nat)
      modifies this
      ensures State() == SettledAs(old(State()), id, TimedOut)
    {
      Settle(id, TimedOut);
    }

    /** The handshake goes on when its ping has been settled. */
    method ResumeHandshake(peer: Peer)
      modifies this
      ensures State() == HandshakeResumed(old(State()), peer)
    {
      if handshake != Pinging { return; }
      var outcome := OutcomeOf(settled, 1);
      if outcome.Some? {
        if outcome.value.Resolved? && peer.versionMatches(outcome.value.frame) {
          handshake := Ready;
        } else {
          FailClosed();
          handshake := Failed;
        }
      }
    }

    /** Settle the request a frame answers. `raised` when handling the frame raises: at once,
        or after the request was removed, when its error cannot be built. */
    method HandleFrame(frame: string, decode: string -> Meaning) returns (raised: bool)
      modifies this
      ensures State() == FrameHandled(old(State()), frame, decode)
      ensures raised <==> Raises(old(State()), frame, decode)
    {
      var meaning := decode(frame);
      if meaning == Throws { return true; }
      if meaning == Ignored || meaning.id < 0 || meaning.id !in pending { return false; }
      var id: nat := meaning.id;
      if meaning.Breaks? {
        pending := pending - {id};
        lost := lost + {id};
        return true;
      }
      Settle(id, if meaning.isError then Refused(frame) else Resolved(frame));
      return false;
    }

    /** Cut the buffer at its newlines and handle each frame, until none is complete or one
        raises. */
    method HandleData(chunk: string, decode: string -> Meaning)
      modifies this
      ensures State() == DataHandled(old(State()), chunk, decode)
    {
      ghost var before := State();
      TextIgnoresBuffer(before, before.buffer + chunk, before.buffer + chunk, decode);
      buffer := buffer + chunk;
      var i := IndexOf(buffer, NEWLINE);
      while i < |buffer|
        invariant i == IndexOf(buffer, NEWLINE)
        invariant TextHandled(State(), buffer, decode) == DataHandled(before, chunk, decode)
        decreases |buffer|
      {
        ghost var now := State();
        var frame, rest := buffer[..i], buffer[i + 1..];
        TextIgnoresBuffer(FrameHandled(now, frame, decode), rest, rest, decode);
        FrameIgnoresBuffer(now, rest, frame, decode);
        buffer := rest;
        var raised := HandleFrame(frame, decode);
        if raised { return; }
        i := IndexOf(buffer, NEWLINE);
      }
    }
  }
}
