/** The control client of the daemon: newline-delimited JSON-RPC over one socket, behind a
    version handshake, as a state machine over everything that can happen to it. */
module IpcSpec {
  import opened Strings
  import opened Wrappers

  const NEWLINE := '\n'
  const PING := "health.ping"

  /** What a frame says. A frame that is not JSON, and a message without an id, settle
      nothing. `Throws` is a frame whose handling always raises: the JSON value null, which
      has no id to read, or an id that cannot be made a number. `Breaks` is an error reply
      whose message cannot be made a string: its handling raises while the error is built,
      after the pending request was removed and before it is rejected. */
  datatype Meaning = Ignored | Throws | Answer(id: int, isError: bool) | Breaks(id: int)

  datatype Outcome = Resolved(frame: string) | Refused(frame: string) | TimedOut | Dropped

  /** One settled request of the wire. */
  datatype Settlement = Settlement(id: nat, outcome: Outcome)

  /** A call that waits for the handshake, and whether its parameters can be written as JSON. */
  datatype Call = Call(name: string, printable: bool)

  /** One request frame put on the wire. */
  datatype Written = Written(id: nat, name: string)

  datatype Handshake = NotStarted | Pinging | Ready | Failed

  /** The client, and what became of its requests: written, settled, or lost to a frame that
      broke them. */
  datatype Client = Client(
    buffer: string, nextId: nat, pending: set<nat>, closed: bool, handshake: Handshake,
    waiting: seq<Call>, written: seq<Written>, settled: seq<Settlement>, lost: set<nat>)

  /** The peer's language: what its frames mean, and which replies carry the right version. */
  datatype Peer = Peer(decode: string -> Meaning, versionMatches: string -> bool)

  const FRESH := Client("", 1, {}, false, NotStarted, [], [], [], {})

  // ---------- requests

  /** An id is spent even when the parameters cannot be written and nothing is sent. */
  function Send(c: Client, call: Call): Client {
    if c.closed then c
    else if !call.printable then c.(nextId := c.nextId + 1)
    else
      c.(nextId := c.nextId + 1, pending := c.pending + {c.nextId},
         written := c.written + [Written(c.nextId, call.name)])
  }

  /** Every request waits for the handshake; the first one starts it. */
  function Requested(c: Client, call: Call): Client {
    var c := if c.handshake != NotStarted then c
      else if c.closed then c.(handshake := Failed)
      else Send(c, Call(PING, true)).(handshake := Pinging);
    c.(waiting := c.waiting + [call])
  }

  function RequestResumed(c: Client): Client {
    if c.waiting == [] then c
    else
      var next := c.(waiting := c.waiting[1..]);
      if c.handshake == Ready then Send(next, c.waiting[0])
      else if c.handshake == Failed then next
      else c
  }

  // ---------- settling

  function SettledAs(c: Client, id: nat, outcome: Outcome): Client {
    if id in c.pending then
      c.(pending := c.pending - {id}, settled := c.settled + [Settlement(id, outcome)])
    else c
  }

  /** Drop the pending requests below `n`, oldest first. */
  function DroppedBelow(c: Client, n: nat): Client {
    if n == 0 then c else SettledAs(DroppedBelow(c, n - 1), n - 1, Dropped)
  }

  function AllDropped(c: Client): Client {
    DroppedBelow(c.(closed := true), c.nextId)
  }

  function FailedClosed(c: Client): Client {
    if c.closed then c else AllDropped(c)
  }

  function OutcomeOf(settled: seq<Settlement>, id: nat): Option<Outcome> {
    if settled == [] then None
    else if settled[|settled| - 1].id == id then Some(settled[|settled| - 1].outcome)
    else OutcomeOf(settled[..|settled| - 1], id)
  }

  /** The handshake goes on once its ping, the first request of all, is settled. */
  function HandshakeResumed(c: Client, peer: Peer): Client {
    if c.handshake != Pinging then c
    else
      match OutcomeOf(c.settled, 1)
      case None => c
      case Some(Resolved(frame)) =>
        if peer.versionMatches(frame) then c.(handshake := Ready) else FailedClosed(c).(handshake := Failed)
      case Some(_) => FailedClosed(c).(handshake := Failed)
  }

  // ---------- frames

  function FrameHandled(c: Client, frame: string, decode: string -> Meaning): Client {
    match decode(frame)
    case Answer(id, isError) =>
      if id >= 0 then SettledAs(c, id, if isError then Refused(frame) else Resolved(frame)) else c
    case Breaks(id) =>
      if BreaksPending(c, frame, decode) then c.(pending := c.pending - {id}, lost := c.lost + {id}) else c
    case _ => c
  }

  /** The frame breaks a request that is still pending. */
  predicate BreaksPending(c: Client, frame: string, decode: string -> Meaning) {
    decode(frame).Breaks? && decode(frame).id >= 0 && decode(frame).id in c.pending
  }

  /** Handling the frame raises. */
  predicate Raises(c: Client, frame: string, decode: string -> Meaning) {
    decode(frame) == Throws || BreaksPending(c, frame, decode)
  }

  /** Handle the complete frames of a text in order and keep the rest; a frame that raises
      leaves everything after it in the buffer. */
  function TextHandled(c: Client, text: string, decode: string -> Meaning): Client
    decreases |text|
  {
    var i := IndexOf(text, NEWLINE);
    if i == |text| then c.(buffer := text)
    else
      var frame, rest := text[..i], text[i + 1..];
      var next := FrameHandled(c, frame, decode);
      if Raises(c, frame, decode) then next.(buffer := rest) else TextHandled(next, rest, decode)
  }

  function DataHandled(c: Client, chunk: string, decode: string -> Meaning): Client {
    TextHandled(c, c.buffer + chunk, decode)
  }

  // ---------- everything that can happen

  datatype Event =
    | Request(call: Call)
    | ResumeRequest
    | ResumeHandshake
    | Data(chunk: string)
    | Timeout(id: nat)
    | SocketFails
    | Close

  function Step(c: Client, e: Event, peer: Peer): Client {
    match e
    case Request(call) => Requested(c, call)
    case ResumeRequest => RequestResumed(c)
    case ResumeHandshake => HandshakeResumed(c, peer)
    case Data(chunk) => DataHandled(c, chunk, peer.decode)
    case Timeout(id) => SettledAs(c, id, TimedOut)
    case SocketFails => AllDropped(c)
    case Close => FailedClosed(c)
  }

  function Run(c: Client, events: seq<Event>, peer: Peer): Client
    decreases |events|
  {
    if events == [] then c else Run(Step(c, events[0], peer), events[1..], peer)
  }

  // ---------- what holds in every reachable state

  ghost predicate IsSettled(settled: seq<Settlement>, id: nat) {
    exists s :: s in settled && s.id == id
  }

  ghost predicate IsIssued(written: seq<Written>, id: nat) {
    exists w :: w in written && w.id == id
  }

  /** Every issued id is in exactly one place: pending, settled once, or lost. */
  ghost predicate Ledger(c: Client) {
    && (forall id: nat :: IsIssued(c.written, id) <==> id in c.pending || IsSettled(c.settled, id) || id in c.lost)
    && (forall id: nat :: IsIssued(c.written, id) ==> 1 <= id < c.nextId)
    && (forall id: nat :: id in c.pending ==> !IsSettled(c.settled, id) && id !in c.lost)
    && (forall id: nat :: id in c.lost ==> !IsSettled(c.settled, id))
    && (forall i, j :: 0 <= i < j < |c.settled| ==> c.settled[i].id != c.settled[j].id)
    && (c.closed ==> c.pending == {})
  }

  /** A value or an error reached a request in a frame that carried its id. */
  ghost predicate Answered(c: Client, decode: string -> Meaning) {
    forall s :: s in c.settled ==> match s.outcome
      case Resolved(frame) => decode(frame) == Answer(s.id, false)
      case Refused(frame) => decode(frame) == Answer(s.id, true)
      case _ => true
  }

  /** Ids are written in order, none twice, the handshake first and nothing else before it
      has succeeded. */
  ghost predicate Wire(c: Client) {
    && (forall i, j :: 0 <= i < j < |c.written| ==> c.written[i].id < c.written[j].id)
    && (c.written != [] ==> c.written[0] == Written(1, PING))
    && (|c.written| > 1 ==> c.handshake == Ready)
    && (c.handshake == NotStarted ==> c.written == [] && c.nextId == 1)
    && (c.handshake in {Pinging, Ready} ==> c.written != [])
  }

  /** Ready means that the ping was answered with the right version. */
  ghost predicate Greeted(c: Client, peer: Peer) {
    c.handshake == Ready ==>
      exists frame :: Settlement(1, Resolved(frame)) in c.settled && peer.versionMatches(frame)
  }

  ghost predicate Inv(c: Client, peer: Peer) {
    c.nextId >= 1 && Ledger(c) && Answered(c, peer.decode) && Wire(c) && Greeted(c, peer)
  }

  // ---------- settling keeps it

  /** What a settlement or a closing may change. */
  ghost predicate SettlesOnly(c: Client, d: Client) {
    && d.written == c.written && d.nextId == c.nextId && d.handshake == c.handshake
    && c.settled <= d.settled && d.pending <= c.pending && c.lost <= d.lost && (c.closed ==> d.closed)
  }

  lemma SettledAsKeeps(c: Client, id: nat, outcome: Outcome, peer: Peer)
    requires Inv(c, peer)
    requires outcome.Resolved? ==> peer.decode(outcome.frame) == Answer(id, false)
    requires outcome.Refused? ==> peer.decode(outcome.frame) == Answer(id, true)
    ensures Inv(SettledAs(c, id, outcome), peer) && SettlesOnly(c, SettledAs(c, id, outcome))
  {
    if id in c.pending {
      SettlingKeepsLedger(c, Settlement(id, outcome));
      var d := SettledAs(c, id, outcome);
      assert forall s :: s in d.settled ==> s in c.settled || s == Settlement(id, outcome);
      assert forall s :: s in c.settled ==> s in d.settled;
    }
  }

  lemma SettlingKeepsLedger(c: Client, s: Settlement)
    requires Ledger(c) && s.id in c.pending
    ensures Ledger(c.(pending := c.pending - {s.id}, settled := c.settled + [s]))
  {
    var all := c.settled + [s];
    forall id: nat ensures IsSettled(all, id) <==> IsSettled(c.settled, id) || id == s.id {
      assert s in all;
      assert forall x :: x in c.settled ==> x in all;
    }
    forall i, j | 0 <= i < j < |all| ensures all[i].id != all[j].id {
      assert i < |c.settled| ==> c.settled[i] in c.settled;
    }
  }

  lemma {:induction false} DroppedBelowKeeps(c: Client, n: nat, peer: Peer)
    requires Inv(c, peer)
    ensures Inv(DroppedBelow(c, n), peer)
  {
    if n > 0 {
      DroppedBelowKeeps(c, n - 1, peer);
      SettledAsKeeps(DroppedBelow(c, n - 1), n - 1, Dropped, peer);
    }
  }

  lemma {:induction false} DroppedBelowSettlesOnly(c: Client, n: nat)
    ensures SettlesOnly(c, DroppedBelow(c, n))
  {
    if n > 0 { DroppedBelowSettlesOnly(c, n - 1); }
  }

  lemma {:induction false} DroppedBelowLeaves(c: Client, n: nat)
    ensures forall id :: id in DroppedBelow(c, n).pending ==> id >= n
  {
    if n > 0 { DroppedBelowLeaves(c, n - 1); }
  }

  /** Closing settles everything that is pending. */
  lemma AllDroppedKeeps(c: Client, peer: Peer)
    requires Inv(c, peer)
    ensures Inv(AllDropped(c), peer) && SettlesOnly(c, AllDropped(c)) && AllDropped(c).pending == {}
    ensures AllDropped(c).closed
  {
    var open := c.(closed := false);
    assert Inv(open, peer);
    DroppedBelowKeeps(open, c.nextId, peer);
    DroppedBelowSettlesOnly(open, c.nextId);
    DroppedBelowLeaves(open, c.nextId);
    DroppedIgnoresClosed(open, c.nextId);
    var d := DroppedBelow(open, c.nextId);
    assert forall id :: id in d.pending ==> id < c.nextId;
    assert d.pending == {};
  }

  lemma {:induction false} DroppedIgnoresClosed(c: Client, n: nat)
    ensures DroppedBelow(c.(closed := true), n) == DroppedBelow(c, n).(closed := true)
  {
    if n > 0 { DroppedIgnoresClosed(c, n - 1); }
  }

  // ---------- frames keep it

  lemma FrameKeeps(c: Client, frame: string, peer: Peer)
    requires Inv(c, peer)
    ensures Inv(FrameHandled(c, frame, peer.decode), peer) && SettlesOnly(c, FrameHandled(c, frame, peer.decode))
  {
    match peer.decode(frame)
    case Answer(id, isError) =>
      if id >= 0 { SettledAsKeeps(c, id, if isError then Refused(frame) else Resolved(frame), peer); }
    case Breaks(id) =>
      if id >= 0 && id in c.pending { LosingKeepsLedger(c, id); }
    case _ =>
  }

  lemma LosingKeepsLedger(c: Client, id: nat)
    requires Ledger(c) && id in c.pending
    ensures Ledger(c.(pending := c.pending - {id}, lost := c.lost + {id}))
  {
  }

  lemma SettlesOnlyChains(c: Client, d: Client, e: Client)
    requires SettlesOnly(c, d) && SettlesOnly(d, e)
    ensures SettlesOnly(c, e)
  {
  }

  lemma {:induction false} TextKeeps(c: Client, text: string, peer: Peer)
    requires Inv(c, peer)
    ensures Inv(TextHandled(c, text, peer.decode), peer) && SettlesOnly(c, TextHandled(c, text, peer.decode))
    decreases |text|
  {
    var i := IndexOf(text, NEWLINE);
    if i < |text| {
      var next := FrameHandled(c, text[..i], peer.decode);
      FrameKeeps(c, text[..i], peer);
      if !Raises(c, text[..i], peer.decode) {
        TextKeeps(next, text[i + 1..], peer);
        SettlesOnlyChains(c, next, TextHandled(next, text[i + 1..], peer.decode));
      }
    }
  }

  // ---------- requests keep it

  lemma SendKeepsLedger(c: Client, call: Call)
    requires c.nextId >= 1 && Ledger(c)
    ensures Ledger(Send(c, call))
  {
    if !c.closed && call.printable {
      var all := c.written + [Written(c.nextId, call.name)];
      assert !IsIssued(c.written, c.nextId);
      forall id: nat ensures IsIssued(all, id) <==> IsIssued(c.written, id) || id == c.nextId {
        assert Written(c.nextId, call.name) in all;
        assert forall w :: w in c.written ==> w in all;
      }
    }
  }

  lemma SendKeepsOrder(c: Client, call: Call)
    requires Ledger(c) && forall i, j :: 0 <= i < j < |c.written| ==> c.written[i].id < c.written[j].id
    ensures var d := Send(c, call); forall i, j :: 0 <= i < j < |d.written| ==> d.written[i].id < d.written[j].id
  {
    forall i | 0 <= i < |c.written| ensures c.written[i].id < c.nextId {
      assert c.written[i] in c.written && IsIssued(c.written, c.written[i].id);
    }
  }

  lemma RequestedKeeps(c: Client, call: Call, peer: Peer)
    requires Inv(c, peer)
    ensures Inv(Requested(c, call), peer)
  {
    if c.handshake == NotStarted { SendKeepsLedger(c, Call(PING, true)); }
  }

  lemma RequestResumedKeeps(c: Client, peer: Peer)
    requires Inv(c, peer)
    ensures Inv(RequestResumed(c), peer)
  {
    if c.waiting != [] {
      var next := c.(waiting := c.waiting[1..]);
      SendKeepsLedger(next, c.waiting[0]);
      SendKeepsOrder(next, c.waiting[0]);
    }
  }

  lemma {:induction false} OutcomeIsSettled(settled: seq<Settlement>, id: nat)
    ensures OutcomeOf(settled, id).Some? ==> Settlement(id, OutcomeOf(settled, id).value) in settled
  {
    if settled != [] {
      OutcomeIsSettled(settled[..|settled| - 1], id);
    }
  }

  lemma HandshakeResumedKeeps(c: Client, peer: Peer)
    requires Inv(c, peer)
    ensures Inv(HandshakeResumed(c, peer), peer)
  {
    OutcomeIsSettled(c.settled, 1);
    AllDroppedKeeps(c, peer);
  }

  lemma StepKeeps(c: Client, e: Event, peer: Peer)
    requires Inv(c, peer)
    ensures Inv(Step(c, e, peer), peer)
  {
    match e
    case Request(call) => RequestedKeeps(c, call, peer);
    case ResumeRequest => RequestResumedKeeps(c, peer);
    case ResumeHandshake => HandshakeResumedKeeps(c, peer);
    case Data(chunk) => TextKeeps(c, c.buffer + chunk, peer);
    case Timeout(id) => SettledAsKeeps(c, id, TimedOut, peer);
    case SocketFails => AllDroppedKeeps(c, peer);
    case Close => AllDroppedKeeps(c, peer);
  }

  lemma {:induction false} RunKeeps(c: Client, events: seq<Event>, peer: Peer)
    requires Inv(c, peer)
    ensures Inv(Run(c, events, peer), peer)
    decreases |events|
  {
    if events == [] {
    } else {
      StepKeeps(c, events[0], peer);
      RunKeeps(Step(c, events[0], peer), events[1..], peer);
    }
  }

  /** Over every run: each request that was issued is pending, settled or lost, in exactly
      one of them and settled at most once, by a frame that carried its id; nothing but the
      handshake is on the wire before a reply with the right version; and a closed client
      waits for nothing. */
  lemma EveryRun(events: seq<Event>, peer: Peer)
    ensures Inv(Run(FRESH, events, peer), peer)
  {
    RunKeeps(FRESH, events, peer);
  }

  lemma {:induction false} NothingPendingNothingSettles(c: Client, text: string, decode: string -> Meaning)
    requires c.pending == {}
    ensures var d := TextHandled(c, text, decode); d.settled == c.settled && d.lost == c.lost
    decreases |text|
  {
    var i := IndexOf(text, NEWLINE);
    if i < |text| && !Raises(c, text[..i], decode) {
      NothingPendingNothingSettles(FrameHandled(c, text[..i], decode), text[i + 1..], decode);
    }
  }

  /** What a later state keeps of an earlier one. */
  ghost predicate Continues(c: Client, d: Client) {
    && c.settled <= d.settled && c.written <= d.written && c.nextId <= d.nextId && c.lost <= d.lost
    && (c.closed ==> d.closed && d.written == c.written && d.settled == c.settled && d.lost == c.lost)
  }

  lemma StepIsMonotone(c: Client, e: Event, peer: Peer)
    requires Inv(c, peer)
    ensures Continues(c, Step(c, e, peer))
  {
    match e
    case Data(chunk) =>
      TextKeeps(c, c.buffer + chunk, peer);
      if c.closed { NothingPendingNothingSettles(c, c.buffer + chunk, peer.decode); }
    case ResumeHandshake => AllDroppedKeeps(c, peer);
    case SocketFails => AllDroppedKeeps(c, peer); ClosedDropsNothing(c, c.nextId);
    case Close => AllDroppedKeeps(c, peer);
    case Timeout(id) =>
    case Request(call) =>
    case ResumeRequest =>
  }

  lemma {:induction false} ClosedDropsNothing(c: Client, n: nat)
    ensures c.pending == {} ==> DroppedBelow(c.(closed := true), n) == c.(closed := true)
  {
    if n > 0 { ClosedDropsNothing(c, n - 1); }
  }

  lemma ContinuesChains(c: Client, d: Client, e: Client)
    requires Continues(c, d) && Continues(d, e)
    ensures Continues(c, e)
  {
  }

  /** Nothing is written, settled or lost after closing, and nothing of it is taken back. */
  lemma {:induction false} RunIsMonotone(c: Client, events: seq<Event>, peer: Peer)
    requires Inv(c, peer)
    ensures Continues(c, Run(c, events, peer))
    decreases |events|
  {
    if events != [] {
      var next := Step(c, events[0], peer);
      StepKeeps(c, events[0], peer);
      StepIsMonotone(c, events[0], peer);
      RunIsMonotone(next, events[1..], peer);
      ContinuesChains(c, next, Run(next, events[1..], peer));
    }
  }

  // ---------- requests that are lost

  /** Some frame that is handled breaks a request that is still pending. */
  predicate BreaksInText(c: Client, text: string, decode: string -> Meaning)
    decreases |text|
  {
    var i := IndexOf(text, NEWLINE);
    i < |text| &&
    (BreaksPending(c, text[..i], decode)
     || (decode(text[..i]) != Throws && BreaksInText(FrameHandled(c, text[..i], decode), text[i + 1..], decode)))
  }

  predicate BreaksInRun(c: Client, events: seq<Event>, peer: Peer)
    decreases |events|
  {
    events != [] &&
    ((events[0].Data? && BreaksInText(c, c.buffer + events[0].chunk, peer.decode))
     || BreaksInRun(Step(c, events[0], peer), events[1..], peer))
  }

  lemma {:induction false} TextLosesExactlyWhen(c: Client, text: string, peer: Peer)
    requires Inv(c, peer)
    ensures TextHandled(c, text, peer.decode).lost != c.lost <==> BreaksInText(c, text, peer.decode)
    decreases |text|
  {
    var i := IndexOf(text, NEWLINE);
    if i < |text| {
      var next := FrameHandled(c, text[..i], peer.decode);
      FrameKeeps(c, text[..i], peer);
      if BreaksPending(c, text[..i], peer.decode) {
        assert peer.decode(text[..i]).id in next.lost;
      } else if !Raises(c, text[..i], peer.decode) {
        assert next.lost == c.lost;
        TextLosesExactlyWhen(next, text[i + 1..], peer);
      }
    }
  }

  lemma {:induction false} DroppingLosesNothing(c: Client, n: nat)
    ensures DroppedBelow(c, n).lost == c.lost
  {
    if n > 0 { DroppingLosesNothing(c, n - 1); }
  }

  lemma StepLosesExactlyWhen(c: Client, e: Event, peer: Peer)
    requires Inv(c, peer)
    ensures Step(c, e, peer).lost != c.lost <==> e.Data? && BreaksInText(c, c.buffer + e.chunk, peer.decode)
  {
    DroppingLosesNothing(c.(closed := true), c.nextId);
    if e.Data? { TextLosesExactlyWhen(c, c.buffer + e.chunk, peer); }
  }

  lemma {:induction false} RunLosesExactlyWhen(c: Client, events: seq<Event>, peer: Peer)
    requires Inv(c, peer)
    ensures Run(c, events, peer).lost != c.lost <==> BreaksInRun(c, events, peer)
    decreases |events|
  {
    if events != [] {
      var next := Step(c, events[0], peer);
      StepKeeps(c, events[0], peer);
      StepIsMonotone(c, events[0], peer);
      StepLosesExactlyWhen(c, events[0], peer);
      RunLosesExactlyWhen(next, events[1..], peer);
      RunIsMonotone(next, events[1..], peer);
    }
  }

  /** Every issued request is still pending or was settled. */
  ghost predicate AllAccounted(c: Client) {
    forall id: nat :: IsIssued(c.written, id) ==> id in c.pending || IsSettled(c.settled, id)
  }

  lemma AccountedMeansNoneLost(c: Client)
    requires Ledger(c)
    ensures AllAccounted(c) <==> c.lost == {}
  {
    if c.lost != {} {
      var id :| id in c.lost;
      assert IsIssued(c.written, id) && id !in c.pending && !IsSettled(c.settled, id);
    }
  }

  /** Every issued request is pending or settled exactly when no frame that was handled broke
      a pending one. */
  lemma AllAccountedExactlyWhen(events: seq<Event>, peer: Peer)
    ensures AllAccounted(Run(FRESH, events, peer)) <==> !BreaksInRun(FRESH, events, peer)
  {
    RunKeeps(FRESH, events, peer);
    RunLosesExactlyWhen(FRESH, events, peer);
    AccountedMeansNoneLost(Run(FRESH, events, peer));
  }

  /** A lost request is never settled: no later reply, timeout or close reaches it. */
  lemma LostForGood(c: Client, events: seq<Event>, peer: Peer, id: nat)
    requires Inv(c, peer) && id in c.lost
    ensures var d := Run(c, events, peer);
      IsIssued(d.written, id) && id !in d.pending && !IsSettled(d.settled, id)
  {
    RunKeeps(c, events, peer);
    RunIsMonotone(c, events, peer);
  }

  /** The ping is on the wire, its reply breaks it, and closing does not reject it either. */
  lemma BrokenReplyLosesRequest(peer: Peer, call: Call, frame: string)
    requires peer.decode(frame) == Breaks(1) && NEWLINE !in frame
    ensures var c := Run(FRESH, [Request(call), Data(frame + [NEWLINE]), Close], peer);
      IsIssued(c.written, 1) && 1 !in c.pending && !IsSettled(c.settled, 1)
  {
    var first, second := Request(call), Data(frame + [NEWLINE]);
    var events := [first, second, Close];
    assert events[1..] == [second, Close] && events[1..][1..] == [Close];
    var c := Step(FRESH, first, peer);
    assert c.pending == {1} && c.buffer + (frame + [NEWLINE]) == frame + [NEWLINE];
    assert (frame + [NEWLINE])[..|frame|] == frame;
    IndexOfIsFirst(frame + [NEWLINE], NEWLINE, |frame|);
    StepKeeps(FRESH, first, peer);
    StepKeeps(c, second, peer);
    LostForGood(Step(c, second, peer), [Close], peer, 1);
  }

  /** An error reply whose message has no text form, and what it leads to. */
  const UNPRINTABLE := "{\"id\":1," + "\"error\":{" + "\"message\":{" + "\"toString\":" + "null}}}"

  lemma UnprintableErrorLosesRequest(peer: Peer, frame: string)
    requires frame == UNPRINTABLE && peer.decode(frame) == Breaks(1)
    ensures var c := Run(FRESH, [Request(Call("task.list", true)), Data(frame + [NEWLINE]), Close], peer);
      !AllAccounted(c) && IsIssued(c.written, 1) && 1 !in c.pending && !IsSettled(c.settled, 1)
  {
    assert NEWLINE !in "{\"id\":1," && NEWLINE !in "\"error\":{" && NEWLINE !in "\"message\":{";
    assert NEWLINE !in "\"toString\":" && NEWLINE !in "null}}}";
    BrokenReplyLosesRequest(peer, Call("task.list", true), frame);
  }

  // ---------- replies settle, timeouts and closing settle, and waiting calls are written

  /** The frame speaks to that request. */
  predicate Addresses(frame: string, id: nat, decode: string -> Meaning) {
    decode(frame) == Answer(id, false) || decode(frame) == Answer(id, true) || decode(frame) == Breaks(id)
  }

  /** The frame raises while these requests are pending. */
  predicate Stops(pending: set<nat>, frame: string, decode: string -> Meaning) {
    decode(frame) == Throws || exists id :: id in pending && decode(frame) == Breaks(id)
  }

  /** The complete frames of a text that are reached: up to the first that raises at its turn. */
  function Reached(pending: set<nat>, text: string, decode: string -> Meaning): seq<string>
    decreases |text|
  {
    var i := IndexOf(text, NEWLINE);
    if i == |text| then []
    else if Stops(pending, text[..i], decode) then [text[..i]]
    else
      var left := set id | id in pending && !Addresses(text[..i], id, decode);
      [text[..i]] + Reached(left, text[i + 1..], decode)
  }

  /** The first of the frames that speaks to a request. */
  function FirstFor(frames: seq<string>, id: nat, decode: string -> Meaning): Option<string> {
    if frames == [] then None
    else if Addresses(frames[0], id, decode) then Some(frames[0])
    else FirstFor(frames[1..], id, decode)
  }

  /** How that frame ends a pending request: with a value, with an error, or not at all when
      its error cannot be built. */
  ghost predicate Ends(d: Client, id: nat, frame: string, decode: string -> Meaning) {
    id !in d.pending && match decode(frame)
      case Answer(_, isError) =>
        Settlement(id, if isError then Refused(frame) else Resolved(frame)) in d.settled && id !in d.lost
      case _ => id in d.lost && !IsSettled(d.settled, id)
  }

  ghost predicate Untouched(c: Client, d: Client, id: nat) {
    && (id in d.pending <==> id in c.pending) && (id in d.lost <==> id in c.lost)
    && (IsSettled(d.settled, id) <==> IsSettled(c.settled, id))
  }

  lemma SettledOneMore(settled: seq<Settlement>, s: Settlement, id: nat)
    ensures IsSettled(settled + [s], id) <==> IsSettled(settled, id) || id == s.id
  {
    assert s in settled + [s];
    assert forall x :: x in settled ==> x in settled + [s];
  }

  /** One frame: it ends the pending request it speaks to, and touches no other. */
  lemma FrameEnds(c: Client, frame: string, peer: Peer, id: nat)
    requires Inv(c, peer)
    ensures var d := FrameHandled(c, frame, peer.decode);
      if id in c.pending && Addresses(frame, id, peer.decode) then Ends(d, id, frame, peer.decode)
      else Untouched(c, d, id)
  {
    match peer.decode(frame)
    case Answer(other, isError) =>
      if other >= 0 && other in c.pending {
        SettledOneMore(c.settled, Settlement(other, if isError then Refused(frame) else Resolved(frame)), id);
      }
    case _ =>
  }

  lemma StopsWhenRaises(c: Client, frame: string, decode: string -> Meaning)
    ensures Raises(c, frame, decode) <==> Stops(c.pending, frame, decode)
    ensures FrameHandled(c, frame, decode).pending
         == set id | id in c.pending && !Addresses(frame, id, decode)
  {
  }

  lemma EndedStaysEnded(c: Client, d: Client, id: nat, frame: string, peer: Peer)
    requires Inv(c, peer) && Inv(d, peer) && SettlesOnly(c, d) && Ends(c, id, frame, peer.decode)
    requires Untouched(c, d, id)
    ensures Ends(d, id, frame, peer.decode)
  {
    assert forall s :: s in c.settled ==> s in d.settled;
  }

  /** Over every text, a pending request is ended by the first reached frame that speaks to
      it, and stays pending when none does; a request that is not pending is not touched. */
  lemma {:induction false} TextEnds(c: Client, text: string, peer: Peer, id: nat)
    requires Inv(c, peer)
    ensures var d := TextHandled(c, text, peer.decode);
      var first := FirstFor(Reached(c.pending, text, peer.decode), id, peer.decode);
      if id in c.pending && first.Some? then Ends(d, id, first.value, peer.decode) else Untouched(c, d, id)
    decreases |text|
  {
    var i := IndexOf(text, NEWLINE);
    if i < |text| {
      var frame, rest := text[..i], text[i + 1..];
      var next := FrameHandled(c, frame, peer.decode);
      FrameKeeps(c, frame, peer);
      FrameEnds(c, frame, peer, id);
      StopsWhenRaises(c, frame, peer.decode);
      if Raises(c, frame, peer.decode) {
        assert Reached(c.pending, text, peer.decode) == [frame] && [frame][1..] == [];
        assert TextHandled(c, text, peer.decode) == next.(buffer := rest);
      } else {
        var reached := Reached(next.pending, rest, peer.decode);
        assert Reached(c.pending, text, peer.decode) == [frame] + reached && ([frame] + reached)[1..] == reached;
        TextEnds(next, rest, peer, id);
        TextKeeps(next, rest, peer);
        EndsLater(c, next, TextHandled(next, rest, peer.decode), frame, reached, peer, id);
      }
    }
  }

  lemma EndsLater(c: Client, next: Client, d: Client, frame: string, reached: seq<string>, peer: Peer, id: nat)
    requires Inv(next, peer) && Inv(d, peer) && SettlesOnly(next, d)
    requires if id in c.pending && Addresses(frame, id, peer.decode) then Ends(next, id, frame, peer.decode)
             else Untouched(c, next, id)
    requires var first := FirstFor(reached, id, peer.decode);
      if id in next.pending && first.Some? then Ends(d, id, first.value, peer.decode) else Untouched(next, d, id)
    ensures var first := FirstFor([frame] + reached, id, peer.decode);
      if id in c.pending && first.Some? then Ends(d, id, first.value, peer.decode) else Untouched(c, d, id)
  {
    assert ([frame] + reached)[1..] == reached;
    if id in c.pending && Addresses(frame, id, peer.decode) {
      EndedStaysEnded(next, d, id, frame, peer);
    }
  }

  /** What arrives on the socket ends requests in just that way, and writes nothing. */
  lemma DataEnds(c: Client, chunk: string, peer: Peer, id: nat)
    requires Inv(c, peer)
    ensures var d := Step(c, Data(chunk), peer);
      var first := FirstFor(Reached(c.pending, c.buffer + chunk, peer.decode), id, peer.decode);
      && (if id in c.pending && first.Some? then Ends(d, id, first.value, peer.decode) else Untouched(c, d, id))
      && d.written == c.written && d.nextId == c.nextId && d.handshake == c.handshake
      && d.waiting == c.waiting && d.closed == c.closed
  {
    TextEnds(c, c.buffer + chunk, peer, id);
    TextKeeps(c, c.buffer + chunk, peer);
    TextWaits(c, c.buffer + chunk, peer.decode);
  }

  ghost predicate WaitsTheSame(c: Client, d: Client) {
    d.waiting == c.waiting && d.closed == c.closed
  }

  lemma FrameWaits(c: Client, frame: string, decode: string -> Meaning)
    ensures WaitsTheSame(c, FrameHandled(c, frame, decode))
  {
  }

  lemma {:induction false} TextWaits(c: Client, text: string, decode: string -> Meaning)
    ensures WaitsTheSame(c, TextHandled(c, text, decode))
    decreases |text|
  {
    var i := IndexOf(text, NEWLINE);
    if i < |text| {
      var next := FrameHandled(c, text[..i], decode);
      FrameWaits(c, text[..i], decode);
      if !Raises(c, text[..i], decode) {
        TextWaits(next, text[i + 1..], decode);
      }
    }
  }

  /** A timeout ends the request it was armed for, if it is pending, and no other. */
  lemma TimeoutEnds(c: Client, timed: nat, peer: Peer, id: nat)
    requires Inv(c, peer)
    ensures var d := Step(c, Timeout(timed), peer);
      if id == timed && id in c.pending then id !in d.pending && Settlement(id, TimedOut) in d.settled
      else Untouched(c, d, id)
  {
    SettledOneMore(c.settled, Settlement(timed, TimedOut), id);
  }

  // ---------- closing

  lemma {:induction false} DroppedBelowDrops(c: Client, n: nat, id: nat)
    ensures id in DroppedBelow(c, n).pending <==> id in c.pending && id >= n
    ensures id in c.pending && id < n ==> Settlement(id, Dropped) in DroppedBelow(c, n).settled
    ensures c.settled <= DroppedBelow(c, n).settled
    decreases n
  {
    if n > 0 {
      DroppedBelowDrops(c, n - 1, id);
      DroppedBelowDrops(c, n - 1, n - 1);
      var d := DroppedBelow(c, n - 1);
      assert forall s :: s in d.settled ==> s in DroppedBelow(c, n).settled;
      if n - 1 in d.pending {
        assert DroppedBelow(c, n).settled[|d.settled|] == Settlement(n - 1, Dropped);
      }
    }
  }

  ghost predicate DropsInOrder(c: Client, d: Client) {
    && c.settled <= d.settled
    && (forall i :: |c.settled| <= i < |d.settled| ==> d.settled[i].outcome == Dropped && d.settled[i].id in c.pending)
    && (forall i, j :: |c.settled| <= i < j < |d.settled| ==> d.settled[i].id < d.settled[j].id)
  }

  lemma {:induction false} DroppedBelowInOrder(c: Client, n: nat)
    ensures var d := DroppedBelow(c, n);
      DropsInOrder(c, d) && forall i :: |c.settled| <= i < |d.settled| ==> d.settled[i].id < n
    decreases n
  {
    if n > 0 {
      DroppedBelowInOrder(c, n - 1);
      DroppedBelowDrops(c, n - 1, n - 1);
    }
  }

  /** Closing an open client, or losing its socket, rejects every pending request, oldest
      first, and nothing else; a closed client that is closed again is left alone. */
  lemma ClosingEnds(c: Client, e: Event, peer: Peer)
    requires Inv(c, peer) && (e.Close? || e.SocketFails?)
    ensures var d := Step(c, e, peer);
      && d.closed && d.pending == {} && d.lost == c.lost && DropsInOrder(c, d)
      && (forall id: nat :: id in c.pending ==> Settlement(id, Dropped) in d.settled)
      && d.written == c.written && d.waiting == c.waiting && d.handshake == c.handshake
  {
    if e.SocketFails? || !c.closed {
      AllDroppedKeeps(c, peer);
      DroppingLosesNothing(c.(closed := true), c.nextId);
      DroppedBelowInOrder(c.(closed := true), c.nextId);
      DroppingWaits(c.(closed := true), c.nextId);
      forall id: nat | id in c.pending ensures Settlement(id, Dropped) in Step(c, e, peer).settled {
        DroppedBelowDrops(c.(closed := true), c.nextId, id);
      }
    }
  }

  lemma {:induction false} DroppingWaits(c: Client, n: nat)
    ensures DroppedBelow(c, n).waiting == c.waiting
  {
    if n > 0 { DroppingWaits(c, n - 1); }
  }

  // ---------- the handshake, and what waits for it

  /** Asking queues the call; the first to ask an open client puts the ping on the wire. */
  lemma RequestQueues(c: Client, call: Call, peer: Peer)
    requires Inv(c, peer)
    ensures var d := Step(c, Request(call), peer);
      && d.waiting == c.waiting + [call] && d.settled == c.settled && d.lost == c.lost && d.closed == c.closed
      && (if c.handshake == NotStarted && !c.closed
          then d.handshake == Pinging && d.written == [Written(1, PING)] && d.pending == c.pending + {1}
               && d.nextId == 2
          else d.handshake == (if c.handshake == NotStarted then Failed else c.handshake)
               && d.written == c.written && d.pending == c.pending && d.nextId == c.nextId)
  {
  }

  lemma {:induction false} OutcomeOfOnly(settled: seq<Settlement>, id: nat, outcome: Outcome)
    requires forall i, j :: 0 <= i < j < |settled| ==> settled[i].id != settled[j].id
    requires Settlement(id, outcome) in settled
    ensures OutcomeOf(settled, id) == Some(outcome)
  {
    var last := settled[|settled| - 1];
    if last.id != id {
      assert forall s :: s in settled ==> s in settled[..|settled| - 1] || s == last;
      OutcomeOfOnly(settled[..|settled| - 1], id, outcome);
    }
  }

  /** The reply to the ping decides: the right version opens the client, and anything else
      that settled the ping closes it. */
  lemma PingDecides(c: Client, outcome: Outcome, peer: Peer)
    requires Inv(c, peer) && c.handshake == Pinging && Settlement(1, outcome) in c.settled
    ensures var d := Step(c, ResumeHandshake, peer);
      if outcome.Resolved? && peer.versionMatches(outcome.frame) then d == c.(handshake := Ready)
      else d.handshake == Failed && d.closed && d.pending == {}
           && (forall id: nat :: id in c.pending ==> Settlement(id, Dropped) in d.settled)
  {
    OutcomeOfOnly(c.settled, 1, outcome);
    ClosingEnds(c, Close, peer);
  }

  function Resumes(n: nat): seq<Event> {
    seq(n, _ => ResumeRequest)
  }

  /** The frames that the waiting calls become, when the first of them gets that id. */
  ghost predicate WrittenFor(c: Client, d: Client, n: nat)
    requires n <= |c.waiting|
  {
    && c.written <= d.written
    && (forall k :: 0 <= k < n && c.waiting[k].printable ==>
          IsPending(d, Written(c.nextId + k, c.waiting[k].name)))
    && (forall i :: |c.written| <= i < |d.written| ==> FromWaiting(c, n, d.written[i]))
  }

  ghost predicate IsPending(d: Client, w: Written) {
    w in d.written && w.id in d.pending
  }

  ghost predicate FromWaiting(c: Client, n: nat, w: Written)
    requires n <= |c.waiting|
  {
    exists k :: 0 <= k < n && c.waiting[k].printable && w == Written(c.nextId + k, c.waiting[k].name)
  }

  /** Behind the handshake the waiting calls are written in the order they came, each with an
      id of its own; those whose parameters cannot be written only spend theirs. */
  lemma {:induction false} ReadyWritesAll(c: Client, n: nat, peer: Peer)
    requires c.handshake == Ready && !c.closed && n <= |c.waiting|
    ensures var d := Run(c, Resumes(n), peer);
      && d.waiting == c.waiting[n..] && d.nextId == c.nextId + n && WrittenFor(c, d, n)
      && d.handshake == Ready && !d.closed && c.pending <= d.pending
    decreases n
  {
    if n > 0 {
      var e := Step(c, ResumeRequest, peer);
      assert Resumes(n)[0] == ResumeRequest && Resumes(n)[1..] == Resumes(n - 1);
      ReadyWritesAll(e, n - 1, peer);
      WritesOneMore(c, e, Run(e, Resumes(n - 1), peer), n);
    }
  }

  lemma WritesOneMore(c: Client, e: Client, d: Client, n: nat)
    requires 0 < n <= |c.waiting| && e == Send(c.(waiting := c.waiting[1..]), c.waiting[0]) && !c.closed
    requires WrittenFor(e, d, n - 1) && e.pending <= d.pending
    ensures WrittenFor(c, d, n)
  {
    assert forall w :: w in e.written ==> w in d.written;
    forall k | 0 <= k < n && c.waiting[k].printable ensures IsPending(d, Written(c.nextId + k, c.waiting[k].name)) {
      if k == 0 {
        assert e.written[|c.written|] == Written(c.nextId, c.waiting[0].name);
      } else {
        assert e.waiting[k - 1] == c.waiting[k];
        assert IsPending(d, Written(e.nextId + (k - 1), e.waiting[k - 1].name));
      }
    }
    forall i | |c.written| <= i < |d.written| ensures FromWaiting(c, n, d.written[i]) {
      if i < |e.written| {
        assert d.written[i] == e.written[i];
      } else {
        var k :| 0 <= k < n - 1 && e.waiting[k].printable
          && d.written[i] == Written(e.nextId + k, e.waiting[k].name);
        assert c.waiting[k + 1] == e.waiting[k];
      }
    }
  }

  /** A client whose handshake failed drops its waiting calls and writes nothing. */
  lemma FailedWritesNothing(c: Client, peer: Peer)
    ensures c.handshake == Failed && c.waiting != [] ==>
      Step(c, ResumeRequest, peer) == c.(waiting := c.waiting[1..])
    ensures c.handshake in {NotStarted, Pinging} || c.waiting == [] ==> Step(c, ResumeRequest, peer) == c
  {
  }

  lemma ReachedFirst(pending: set<nat>, text: string, frame: string, decode: string -> Meaning)
    requires IndexOf(text, NEWLINE) == |frame| < |text| && text[..|frame|] == frame
    requires Addresses(frame, 1, decode)
    ensures FirstFor(Reached(pending, text, decode), 1, decode) == Some(frame)
  {
    assert Reached(pending, text, decode)[0] == frame;
  }

  /** The whole handshake: a ping that is answered with the right version opens the client,
      and everything that waited goes out. */
  lemma HandshakeOpens(c: Client, frame: string, peer: Peer)
    requires Inv(c, peer) && c.handshake == Pinging && 1 in c.pending && !c.closed && c.buffer == ""
    requires NEWLINE !in frame && peer.decode(frame) == Answer(1, false) && peer.versionMatches(frame)
    ensures var d := Step(Step(c, Data(frame + [NEWLINE]), peer), ResumeHandshake, peer);
      d.handshake == Ready && d.waiting == c.waiting && WrittenFor(d, Run(d, Resumes(|d.waiting|), peer), |d.waiting|)
  {
    var text := frame + [NEWLINE];
    assert c.buffer + text == text && text[..|frame|] == frame && text[|frame| + 1..] == "";
    IndexOfIsFirst(text, NEWLINE, |frame|);
    var e := Step(c, Data(text), peer);
    StepKeeps(c, Data(text), peer);
    DataEnds(c, text, peer, 1);
    ReachedFirst(c.pending, text, frame, peer.decode);
    PingDecides(e, Resolved(frame), peer);
    ReadyWritesAll(Step(e, ResumeHandshake, peer), |c.waiting|, peer);
  }

  // ---------- chunking

  function Concat(chunks: seq<string>): string {
    if chunks == [] then "" else chunks[0] + Concat(chunks[1..])
  }

  function ChunksHandled(c: Client, chunks: seq<string>, decode: string -> Meaning): Client
    decreases |chunks|
  {
    if chunks == [] then c else ChunksHandled(DataHandled(c, chunks[0], decode), chunks[1..], decode)
  }

  function Joined(frames: seq<string>): string {
    if frames == [] then "" else frames[0] + [NEWLINE] + Joined(frames[1..])
  }

  function FramesHandled(c: Client, frames: seq<string>, decode: string -> Meaning): Client
    decreases |frames|
  {
    if frames == [] then c else FramesHandled(FrameHandled(c, frames[0], decode), frames[1..], decode)
  }

  /** None of the frames holds a newline, and none raises when its turn comes. */
  predicate Harmless(c: Client, frames: seq<string>, decode: string -> Meaning)
    decreases |frames|
  {
    frames == [] ||
    (NEWLINE !in frames[0] && !Raises(c, frames[0], decode)
     && Harmless(FrameHandled(c, frames[0], decode), frames[1..], decode))
  }

  lemma JoinedSplits(frame: string, more: string, rest: string)
    requires NEWLINE !in frame
    ensures var text := frame + [NEWLINE] + more + rest;
      IndexOf(text, NEWLINE) == |frame| < |text| && text[..|frame|] == frame && text[|frame| + 1..] == more + rest
  {
    var text := frame + [NEWLINE] + more + rest;
    assert text[..|frame|] == frame;
    IndexOfIsFirst(text, NEWLINE, |frame|);
  }

  /** A text of complete frames and an unterminated rest: exactly those frames are handled,
      in order, and exactly the rest is kept. */
  lemma {:induction false} HandlesExactlyTheFrames(c: Client, frames: seq<string>, rest: string,
      decode: string -> Meaning)
    requires Harmless(c, frames, decode) && NEWLINE !in rest
    ensures TextHandled(c, Joined(frames) + rest, decode) == FramesHandled(c, frames, decode).(buffer := rest)
    decreases |frames|
  {
    if frames == [] {
      assert Joined(frames) + rest == rest;
      IndexOfIsFirst(rest, NEWLINE, |rest|);
    } else {
      var frame, others := frames[0], frames[1..];
      JoinedSplits(frame, Joined(others), rest);
      FrameAndRest(c, Joined(frames) + rest, frame, Joined(others) + rest, decode);
      HandlesExactlyTheFrames(FrameHandled(c, frame, decode), others, rest, decode);
    }
  }

  /** Some complete frame raises although another complete frame follows it. */
  predicate RaisesEarly(c: Client, text: string, decode: string -> Meaning)
    decreases |text|
  {
    var i := IndexOf(text, NEWLINE);
    i < |text| &&
    (if Raises(c, text[..i], decode) then IndexOf(text[i + 1..], NEWLINE) < |text[i + 1..]|
     else RaisesEarly(FrameHandled(c, text[..i], decode), text[i + 1..], decode))
  }

  lemma {:induction false} IndexIn(a: string, b: string)
    ensures IndexOf(a, NEWLINE) < |a| ==> IndexOf(a + b, NEWLINE) == IndexOf(a, NEWLINE)
    ensures IndexOf(a, NEWLINE) == |a| ==> IndexOf(a + b, NEWLINE) == |a| + IndexOf(b, NEWLINE)
  {
    if a == "" {
      assert a + b == b;
    } else {
      assert (a + b)[1..] == a[1..] + b;
      IndexIn(a[1..], b);
    }
  }

  lemma FrameIgnoresBuffer(c: Client, buffer: string, frame: string, decode: string -> Meaning)
    ensures FrameHandled(c.(buffer := buffer), frame, decode) == FrameHandled(c, frame, decode).(buffer := buffer)
    ensures Raises(c.(buffer := buffer), frame, decode) == Raises(c, frame, decode)
  {
  }

  lemma {:induction false} TextIgnoresBuffer(c: Client, buffer: string, text: string, decode: string -> Meaning)
    ensures TextHandled(c.(buffer := buffer), text, decode) == TextHandled(c, text, decode)
    decreases |text|
  {
    var i := IndexOf(text, NEWLINE);
    if i < |text| {
      FrameIgnoresBuffer(c, buffer, text[..i], decode);
      if !Raises(c, text[..i], decode) {
        TextIgnoresBuffer(FrameHandled(c, text[..i], decode), buffer, text[i + 1..], decode);
      }
    }
  }

  lemma FirstFrame(a: string, b: string)
    requires IndexOf(a, NEWLINE) < |a|
    ensures var i := IndexOf(a, NEWLINE);
      IndexOf(a + b, NEWLINE) == i && (a + b)[..i] == a[..i] && (a + b)[i + 1..] == a[i + 1..] + b
  {
    IndexIn(a, b);
  }

  /** Handling a text in two parts is handling it at once, when nothing raises early. */
  lemma {:induction false} SplitText(c: Client, a: string, b: string, decode: string -> Meaning)
    requires !RaisesEarly(c, a + b, decode)
    ensures DataHandled(TextHandled(c, a, decode), b, decode) == TextHandled(c, a + b, decode)
    decreases |a|
  {
    var i := IndexOf(a, NEWLINE);
    if i == |a| {
      TextIgnoresBuffer(c, a, a + b, decode);
    } else {
      FirstFrame(a, b);
      var frame, rest := a[..i], a[i + 1..];
      if Raises(c, frame, decode) {
        TextIgnoresBuffer(FrameHandled(c, frame, decode), rest, rest + b, decode);
      } else {
        SplitText(FrameHandled(c, frame, decode), rest, b, decode);
      }
    }
  }

  lemma {:induction false} PrefixRaisesLess(c: Client, a: string, b: string, decode: string -> Meaning)
    requires !RaisesEarly(c, a + b, decode)
    ensures !RaisesEarly(c, a, decode)
    decreases |a|
  {
    var i := IndexOf(a, NEWLINE);
    if i < |a| {
      FirstFrame(a, b);
      var rest := a[i + 1..];
      var next := FrameHandled(c, a[..i], decode);
      if Raises(c, a[..i], decode) {
        IndexIn(rest, b);
      } else {
        PrefixRaisesLess(next, rest, b, decode);
      }
    }
  }

  /** However the bytes are cut, the same frames are handled and the same rest is kept. */
  lemma {:induction false} ChunkingIrrelevant(c: Client, text: string, chunks: seq<string>, decode: string -> Meaning)
    requires !RaisesEarly(c, c.buffer + text + Concat(chunks), decode)
    ensures ChunksHandled(DataHandled(c, text, decode), chunks, decode) == DataHandled(c, text + Concat(chunks), decode)
    decreases |chunks|
  {
    if chunks == [] {
      assert text + Concat(chunks) == text;
    } else {
      var more, rest := text + chunks[0], Concat(chunks[1..]);
      assert text + Concat(chunks) == more + rest;
      assert c.buffer + text + Concat(chunks) == c.buffer + more + rest;
      assert (c.buffer + text) + chunks[0] == c.buffer + more;
      PrefixRaisesLess(c, c.buffer + more, rest, decode);
      SplitText(c, c.buffer + text, chunks[0], decode);
      ChunkingIrrelevant(c, more, chunks[1..], decode);
    }
  }

  lemma {:induction false} HandledIsShorter(c: Client, text: string, decode: string -> Meaning)
    ensures |TextHandled(c, text, decode).buffer| <= |text|
    ensures IndexOf(text, NEWLINE) < |text| ==> |TextHandled(c, text, decode).buffer| < |text|
    decreases |text|
  {
    var i := IndexOf(text, NEWLINE);
    if i < |text| && !Raises(c, text[..i], decode) {
      HandledIsShorter(FrameHandled(c, text[..i], decode), text[i + 1..], decode);
    }
  }

  lemma {:induction false} HasNewline(text: string, k: nat)
    requires IndexOf(text, NEWLINE) < k <= |text|
    ensures IndexOf(text[..k], NEWLINE) == IndexOf(text, NEWLINE)
  {
    if text[0] != NEWLINE {
      assert text[..k][1..] == text[1..][..k - 1];
      HasNewline(text[1..], k - 1);
    }
  }

  /** What stands behind the frame that raises early. */
  function AfterRaise(c: Client, text: string, decode: string -> Meaning): string
    requires RaisesEarly(c, text, decode)
    decreases |text|
  {
    var i := IndexOf(text, NEWLINE);
    if Raises(c, text[..i], decode) then text[i + 1..]
    else AfterRaise(FrameHandled(c, text[..i], decode), text[i + 1..], decode)
  }

  /** Everything up to that frame and its newline. */
  function UpToRaise(c: Client, text: string, decode: string -> Meaning): (front: string)
    requires RaisesEarly(c, text, decode)
    ensures |front| > IndexOf(text, NEWLINE)
    decreases |text|
  {
    var i := IndexOf(text, NEWLINE);
    text[..i + 1] +
    (if Raises(c, text[..i], decode) then "" else UpToRaise(FrameHandled(c, text[..i], decode), text[i + 1..], decode))
  }

  lemma {:induction false} RaiseSplits(c: Client, text: string, decode: string -> Meaning)
    requires RaisesEarly(c, text, decode)
    ensures text == UpToRaise(c, text, decode) + AfterRaise(c, text, decode)
    decreases |text|
  {
    var i := IndexOf(text, NEWLINE);
    var front, rest := text[..i + 1], text[i + 1..];
    Halves(text, i + 1);
    if Raises(c, text[..i], decode) {
      Rejoin(front, "", rest);
    } else {
      var next := FrameHandled(c, text[..i], decode);
      RaiseSplits(next, rest, decode);
      Rejoin(front, UpToRaise(next, rest, decode), AfterRaise(next, rest, decode));
    }
  }

  lemma Halves(text: string, k: nat)
    requires k <= |text|
    ensures text == text[..k] + text[k..]
  {
  }

  lemma Rejoin(a: string, b: string, c: string)
    ensures a + b + c == a + (b + c) && "" + c == c
  {
  }

  lemma SameRest(a: string, b: string, c: string)
    requires a + b == a + c
    ensures b == c
  {
    assert (a + b)[|a|..] == b && (a + c)[|a|..] == c;
  }

  /** Handling stops at the raise: everything behind it stays in the buffer. */
  lemma {:induction false} RaiseKeepsTheRest(c: Client, text: string, decode: string -> Meaning)
    requires RaisesEarly(c, text, decode)
    ensures TextHandled(c, text, decode).buffer == AfterRaise(c, text, decode)
    ensures IndexOf(AfterRaise(c, text, decode), NEWLINE) < |AfterRaise(c, text, decode)|
    decreases |text|
  {
    var i := IndexOf(text, NEWLINE);
    if !Raises(c, text[..i], decode) {
      RaiseKeepsTheRest(FrameHandled(c, text[..i], decode), text[i + 1..], decode);
    }
  }

  lemma FrameAndRest(c: Client, text: string, frame: string, rest: string, decode: string -> Meaning)
    requires IndexOf(text, NEWLINE) < |text|
    requires text[..IndexOf(text, NEWLINE)] == frame && text[IndexOf(text, NEWLINE) + 1..] == rest
    ensures var next := FrameHandled(c, frame, decode);
      TextHandled(c, text, decode) ==
        if Raises(c, frame, decode) then next.(buffer := rest) else TextHandled(next, rest, decode)
  {
  }

  lemma FrontOfText(text: string, more: string)
    requires IndexOf(text, NEWLINE) < |text|
    ensures var i := IndexOf(text, NEWLINE); var all := text[..i + 1] + more;
      IndexOf(all, NEWLINE) == i && all[..i] == text[..i] && all[i + 1..] == more
  {
    var i := IndexOf(text, NEWLINE);
    HasNewline(text, i + 1);
    IndexIn(text[..i + 1], more);
  }

  lemma HandledFrameFirst(c: Client, text: string, more: string, decode: string -> Meaning)
    requires IndexOf(text, NEWLINE) < |text|
    ensures var i := IndexOf(text, NEWLINE); var next := FrameHandled(c, text[..i], decode);
      TextHandled(c, text[..i + 1] + more, decode) ==
        if Raises(c, text[..i], decode) then next.(buffer := more) else TextHandled(next, more, decode)
  {
    FrontOfText(text, more);
    FrameAndRest(c, text[..IndexOf(text, NEWLINE) + 1] + more, text[..IndexOf(text, NEWLINE)], more, decode);
  }

  /** Of what is delivered so far, everything up to the raise is handled, and the rest kept. */
  lemma {:induction false} RaiseKeepsMore(c: Client, text: string, more: string, decode: string -> Meaning)
    requires RaisesEarly(c, text, decode)
    ensures TextHandled(c, UpToRaise(c, text, decode) + more, decode).buffer == more
    decreases |text|
  {
    var i := IndexOf(text, NEWLINE);
    var front := text[..i + 1];
    if Raises(c, text[..i], decode) {
      HandledFrameFirst(c, text, more, decode);
      assert UpToRaise(c, text, decode) == front + "" == front;
    } else {
      var next := FrameHandled(c, text[..i], decode);
      var up := UpToRaise(next, text[i + 1..], decode);
      HandledFrameFirst(c, text, up + more, decode);
      Rejoin(front, up, more);
      RaiseKeepsMore(next, text[i + 1..], more, decode);
    }
  }

  /** However a text is cut into chunks, at least one of them, the outcome is the same. */
  ghost predicate SameForEveryCut(c: Client, text: string, decode: string -> Meaning) {
    forall chunks :: chunks != [] && Concat(chunks) == text ==>
      ChunksHandled(c, chunks, decode) == DataHandled(c, text, decode)
  }

  /** For every client, whatever its buffer holds, the outcome of a text is the same for every
      way of cutting it exactly when no frame raises with another complete frame behind it. */
  lemma ChunkIndependentExactlyWhen(c: Client, text: string, decode: string -> Meaning)
    ensures SameForEveryCut(c, text, decode) <==> !RaisesEarly(c, c.buffer + text, decode)
  {
    if RaisesEarly(c, c.buffer + text, decode) {
      RaisingTextDependsOnCut(c, text, decode);
    } else {
      forall chunks | chunks != [] && Concat(chunks) == text
        ensures ChunksHandled(c, chunks, decode) == DataHandled(c, text, decode)
      {
        Rejoin(c.buffer, chunks[0], Concat(chunks[1..]));
        ChunkingIrrelevant(c, chunks[0], chunks[1..], decode);
      }
    }
  }

  lemma TwoChunks(c: Client, first: string, second: string, decode: string -> Meaning)
    ensures Concat([first, second]) == first + second
    ensures ChunksHandled(c, [first, second], decode) == DataHandled(DataHandled(c, first, decode), second, decode)
  {
    assert [first, second][1..] == [second] && [second][1..] == [];
    assert Concat([second]) == second + "" == second;
    var d := DataHandled(c, first, decode);
    assert ChunksHandled(d, [second], decode) == ChunksHandled(DataHandled(d, second, decode), [], decode);
  }

  /** A cut at the raise, or before it when the raise is in the buffer already, leaves less in
      the buffer than no cut: the second chunk lets handling go on behind the raise. */
  lemma CutAtRaise(c: Client, first: string, second: string, more: string, decode: string -> Meaning)
    requires RaisesEarly(c, c.buffer + first + second, decode)
    requires c.buffer + first == UpToRaise(c, c.buffer + first + second, decode) + more
    ensures DataHandled(DataHandled(c, first, decode), second, decode).buffer
         != TextHandled(c, c.buffer + first + second, decode).buffer
  {
    var all := c.buffer + first + second;
    var up, after := UpToRaise(c, all, decode), AfterRaise(c, all, decode);
    RaiseSplits(c, all, decode);
    Rejoin(up, more, second);
    SameRest(up, more + second, after);
    RaiseKeepsTheRest(c, all, decode);
    RaiseKeepsMore(c, all, more, decode);
    HandledIsShorter(TextHandled(c, c.buffer + first, decode), more + second, decode);
  }

  lemma CutMatters(c: Client, first: string, second: string, more: string, decode: string -> Meaning)
    requires RaisesEarly(c, c.buffer + first + second, decode)
    requires c.buffer + first == UpToRaise(c, c.buffer + first + second, decode) + more
    ensures !SameForEveryCut(c, first + second, decode)
  {
    TwoChunks(c, first, second, decode);
    CutAtRaise(c, first, second, more, decode);
    Rejoin(c.buffer, first, second);
    NotForEveryCut(c, [first, second], first + second, decode);
  }

  lemma NotForEveryCut(c: Client, chunks: seq<string>, text: string, decode: string -> Meaning)
    requires chunks != [] && Concat(chunks) == text && ChunksHandled(c, chunks, decode) != DataHandled(c, text, decode)
    ensures !SameForEveryCut(c, text, decode)
  {
  }

  lemma CutText(buffer: string, text: string, front: string, back: string)
    requires buffer + text == front + back
    ensures var cut := if |buffer| <= |front| then |front| - |buffer| else 0;
      && cut <= |text| && text[..cut] + text[cut..] == text
      && buffer + text[..cut] + text[cut..] == buffer + text
      && |front| <= |buffer| + cut && buffer + text[..cut] == front + (buffer + text[..cut])[|front|..]
  {
    var cut := if |buffer| <= |front| then |front| - |buffer| else 0;
    assert |front| <= |buffer + text|;
    var head := buffer + text[..cut];
    assert (buffer + text)[..|front|] == head[..|front|];
    assert (front + back)[..|front|] == front;
  }

  lemma RaisingTextDependsOnCut(c: Client, text: string, decode: string -> Meaning)
    requires RaisesEarly(c, c.buffer + text, decode)
    ensures !SameForEveryCut(c, text, decode)
  {
    var all := c.buffer + text;
    RaiseSplits(c, all, decode);
    var up := UpToRaise(c, all, decode);
    CutText(c.buffer, text, up, AfterRaise(c, all, decode));
    var cut := if |c.buffer| <= |up| then |up| - |c.buffer| else 0;
    CutMatters(c, text[..cut], text[cut..], (c.buffer + text[..cut])[|up|..], decode);
  }
}
