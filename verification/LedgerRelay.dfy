/** The relay between the daemon's append-only ledgers and the windows: each window has at
    most one subscription, which first drains its ledger into an opening result and then
    polls it, pushing every event behind its cursor. */
module LedgerRelays {
  import opened LedgerSpec

  datatype Phase = Opening | Polling | Over

  /** One subscription: where it started, its cursor, and what it handed to its window. */
  datatype Poll = Poll(owner: nat, session: string, start: nat, afterSeq: nat, aborted: bool,
    phase: Phase, drained: seq<Event>, pushed: seq<Event>)

  /** The subscriptions ever made, and which of them each window owns now. */
  datatype Relay = Relay(polls: map<nat, nat>, states: seq<Poll>, closed: bool)

  const FRESH := Relay(map[], [], false)

  // ---------- the relay's own steps

  predicate Owns(r: Relay, id: nat)
    requires id < |r.states|
  {
    r.states[id].owner in r.polls && r.polls[r.states[id].owner] == id
  }

  function Stopped(r: Relay, id: nat): Relay
    requires id < |r.states|
  {
    r.(states := r.states[id := r.states[id].(aborted := true)],
       polls := if Owns(r, id) then r.polls - {r.states[id].owner} else r.polls)
  }

  function PreviousStopped(r: Relay, window: nat): Relay {
    if window in r.polls && r.polls[window] < |r.states| then Stopped(r, r.polls[window]) else r
  }

  function Subscribed(r: Relay, window: nat, session: string, afterSeq: nat): Relay {
    if r.closed then r
    else
      var s := PreviousStopped(r, window);
      s.(polls := s.polls[window := |s.states|],
         states := s.states + [Poll(window, session, afterSeq, afterSeq, false, Opening, [], [])])
  }

  function Cursor(p: Poll, events: seq<Event>): nat {
    if events == [] then p.afterSeq else events[|events| - 1].number
  }

  /** A page while opening extends the result; the poll starts at the end of the ledger. */
  function Drained(p: Poll, page: seq<Event>, lastSeq: nat): Poll {
    var q := p.(drained := p.drained + page, afterSeq := Cursor(p, page));
    if q.afterSeq >= lastSeq then q.(phase := Polling) else q
  }

  /** A polled page is pushed event by event, up to one whose listener raises. */
  function Pushed(p: Poll, heard: seq<Event>): Poll {
    p.(pushed := p.pushed + heard, afterSeq := Cursor(p, heard))
  }

  function Ended(r: Relay, id: nat): Relay
    requires id < |r.states|
  {
    var s := Stopped(r, id);
    s.(states := s.states[id := s.states[id].(phase := Over)])
  }

  /** A page arrives. `heard` counts the events handled before a listener raised, if one
      did; a subscription that was aborted meanwhile drops the page. */
  function PageTaken(r: Relay, id: nat, page: seq<Event>, lastSeq: nat, heard: nat): Relay
    requires id < |r.states| && heard <= |page|
  {
    var p := r.states[id];
    if p.phase == Over then r
    else if p.aborted then Ended(r, id)
    else
      var q := if p.phase == Opening then Drained(p, page, lastSeq) else Pushed(p, page[..heard]);
      r.(states := r.states[id := q])
  }

  /** A failed page ends an opening; a poll tries again from its cursor. */
  function PageFailed(r: Relay, id: nat): Relay
    requires id < |r.states|
  {
    var p := r.states[id];
    if p.phase == Over || (p.phase == Polling && !p.aborted) then r else Ended(r, id)
  }

  function StoppedBelow(r: Relay, n: nat): Relay
    requires n <= |r.states|
    ensures |StoppedBelow(r, n).states| == |r.states|
  {
    if n == 0 then r
    else
      var s := StoppedBelow(r, n - 1);
      if Owns(s, n - 1) then Stopped(s, n - 1) else s
  }

  function Reset(r: Relay): Relay {
    StoppedBelow(r, |r.states|).(polls := map[])
  }

  function Closed(r: Relay): Relay {
    if r.closed then r else StoppedBelow(r.(closed := true), |r.states|)
  }

  // ---------- the relay and the daemon together

  /** The ledger of each session that has one. */
  type Ledgers = map<string, seq<Event>>

  datatype World = World(ledgers: Ledgers, relay: Relay)

  function LedgerOf(ledgers: Ledgers, session: string): seq<Event> {
    if session in ledgers then ledgers[session] else []
  }

  /** The event that a session's next append adds; the numbers may skip. */
  function NextEvent(ledgers: Ledgers, session: string, gap: nat, body: string): Event {
    Event(LastSeq(LedgerOf(ledgers, session)) + 1 + gap, body)
  }

  function Appended(ledgers: Ledgers, session: string, gap: nat, body: string): Ledgers {
    var ledger := LedgerOf(ledgers, session);
    ledgers[session := ledger + [NextEvent(ledgers, session, gap, body)]]
  }

  /** The page a daemon serves: at most `size` events, the first ones behind the cursor. */
  function Page(ledger: seq<Event>, afterSeq: nat, size: nat): seq<Event> {
    var all := After(ledger, afterSeq);
    if size <= |all| then all[..size] else all
  }

  datatype Action =
    | Append(session: string, gap: nat, body: string)
    | Open(window: nat, session: string, afterSeq: nat)
    | PageArrives(id: nat, size: nat, lastSeq: nat, heard: nat)
    | PageFails(id: nat)
    | WindowDestroyed(window: nat)
    | ResetAll
    | Close

  function Serve(w: World, id: nat, size: nat, lastSeq: nat, heard: nat): Relay
    requires id < |w.relay.states|
  {
    var p := w.relay.states[id];
    var page := Page(LedgerOf(w.ledgers, p.session), p.afterSeq, size);
    PageTaken(w.relay, id, page, lastSeq, if heard <= |page| then heard else |page|)
  }

  function Step(w: World, a: Action): World {
    match a
    case Append(session, gap, body) => w.(ledgers := Appended(w.ledgers, session, gap, body))
    case Open(window, session, afterSeq) => w.(relay := Subscribed(w.relay, window, session, afterSeq))
    case PageArrives(id, size, lastSeq, heard) =>
      if id < |w.relay.states| then w.(relay := Serve(w, id, size, lastSeq, heard)) else w
    case PageFails(id) => if id < |w.relay.states| then w.(relay := PageFailed(w.relay, id)) else w
    case WindowDestroyed(window) => w.(relay := PreviousStopped(w.relay, window))
    case ResetAll => w.(relay := Reset(w.relay))
    case Close => w.(relay := Closed(w.relay))
  }

  function Run(w: World, actions: seq<Action>): World
    decreases |actions|
  {
    if actions == [] then w else Run(Step(w, actions[0]), actions[1..])
  }

  const START := World(map[], FRESH)

  // ---------- what holds in every reachable world

  /** What a subscription handed over is its ledger's segment up to its cursor. */
  ghost predicate Told(p: Poll, ledger: seq<Event>) {
    && p.start <= p.afterSeq
    && (p.afterSeq == p.start || p.afterSeq <= LastSeq(ledger))
    && p.drained + p.pushed == Segment(ledger, p.start, p.afterSeq)
    && (p.phase == Opening ==> p.pushed == [])
  }

  ghost predicate AllTold(w: World) {
    && (forall session :: session in w.ledgers ==> Increasing(w.ledgers[session]))
    && (forall id :: 0 <= id < |w.relay.states| ==> TellsTrue(w, id))
  }

  ghost predicate TellsTrue(w: World, id: nat)
    requires id < |w.relay.states|
  {
    Told(w.relay.states[id], LedgerOf(w.ledgers, w.relay.states[id].session))
  }

  /** The subscriptions that are not aborted are exactly those a window owns. */
  ghost predicate OnePerWindow(r: Relay) {
    && (forall window :: window in r.polls ==>
          r.polls[window] < |r.states| && r.states[r.polls[window]].owner == window)
    && (forall id :: 0 <= id < |r.states| ==> (!r.states[id].aborted <==> Owns(r, id)))
    && (forall id :: 0 <= id < |r.states| ==> (r.states[id].phase == Over ==> r.states[id].aborted))
    && (r.closed ==> r.polls == map[])
  }

  ghost predicate Inv(w: World) {
    AllTold(w) && OnePerWindow(w.relay)
  }

  // ---------- the cursor

  lemma PageTold(p: Poll, ledger: seq<Event>, page: seq<Event>, m: nat)
    requires Told(p, ledger) && Increasing(ledger) && m <= |After(ledger, p.afterSeq)|
    requires page == After(ledger, p.afterSeq)[..m]
    ensures var c := Cursor(p, page);
      && p.afterSeq <= c && (c == p.afterSeq || c <= LastSeq(ledger))
      && p.drained + p.pushed + page == Segment(ledger, p.start, c)
  {
    if m > 0 {
      PageIsSegment(ledger, p.afterSeq, m);
      SegmentsJoin(ledger, p.start, p.afterSeq, Cursor(p, page));
    }
  }

  lemma DrainedTold(p: Poll, ledger: seq<Event>, size: nat, lastSeq: nat)
    requires Told(p, ledger) && Increasing(ledger) && p.phase == Opening
    ensures Told(Drained(p, Page(ledger, p.afterSeq, size), lastSeq), ledger)
  {
    var page := Page(ledger, p.afterSeq, size);
    assert page == After(ledger, p.afterSeq)[..|page|];
    PageTold(p, ledger, page, |page|);
    assert p.drained + p.pushed == p.drained && p.drained + page + [] == p.drained + page;
  }

  lemma PushedTold(p: Poll, ledger: seq<Event>, size: nat, heard: nat)
    requires Told(p, ledger) && Increasing(ledger) && p.phase != Opening
    requires heard <= |Page(ledger, p.afterSeq, size)|
    ensures Told(Pushed(p, Page(ledger, p.afterSeq, size)[..heard]), ledger)
  {
    var now := Page(ledger, p.afterSeq, size)[..heard];
    assert now == After(ledger, p.afterSeq)[..heard];
    PageTold(p, ledger, now, heard);
    assert p.drained + (p.pushed + now) == p.drained + p.pushed + now;
  }

  lemma AppendTold(p: Poll, ledger: seq<Event>, e: Event)
    requires Told(p, ledger) && e.number > LastSeq(ledger)
    ensures Told(p, ledger + [e])
  {
    if p.afterSeq == p.start {
      NothingBetween(ledger, p.start, p.afterSeq);
      NothingBetween(ledger + [e], p.start, p.afterSeq);
    } else {
      SegmentIgnoresAppend(ledger, p.start, p.afterSeq, e);
    }
  }

  lemma AppendIncreases(ledger: seq<Event>, e: Event)
    requires Increasing(ledger) && e.number > LastSeq(ledger)
    ensures Increasing(ledger + [e])
  {
  }

  lemma AppendTellsTrue(w: World, session: string, gap: nat, body: string, id: nat)
    requires id < |w.relay.states| && TellsTrue(w, id)
    ensures TellsTrue(w.(ledgers := Appended(w.ledgers, session, gap, body)), id)
  {
    var p := w.relay.states[id];
    AppendTold(p, LedgerOf(w.ledgers, p.session), NextEvent(w.ledgers, p.session, gap, body));
  }

  lemma AppendKeeps(w: World, session: string, gap: nat, body: string)
    requires Inv(w)
    ensures Inv(w.(ledgers := Appended(w.ledgers, session, gap, body)))
  {
    AppendIncreases(LedgerOf(w.ledgers, session), NextEvent(w.ledgers, session, gap, body));
    forall id | 0 <= id < |w.relay.states|
      ensures TellsTrue(w.(ledgers := Appended(w.ledgers, session, gap, body)), id)
    {
      AppendTellsTrue(w, session, gap, body, id);
    }
  }

  lemma LedgerIncreases(w: World, session: string)
    requires AllTold(w)
    ensures Increasing(LedgerOf(w.ledgers, session))
  {
  }

  /** One live subscription moves on, as its ledger says. */
  lemma PollReplacedKeeps(w: World, id: nat, q: Poll)
    requires Inv(w) && id < |w.relay.states|
    requires var p := w.relay.states[id];
      q.owner == p.owner && q.session == p.session && q.aborted == p.aborted && q.phase != Over
    requires Told(q, LedgerOf(w.ledgers, q.session))
    ensures Inv(w.(relay := w.relay.(states := w.relay.states[id := q])))
  {
    var v := w.(relay := w.relay.(states := w.relay.states[id := q]));
    forall k | 0 <= k < |v.relay.states| ensures TellsTrue(v, k) {
      if k != id { assert TellsTrue(w, k); }
    }
    forall k | 0 <= k < |v.relay.states| ensures Owns(v.relay, k) == Owns(w.relay, k) {
    }
  }

  lemma ServeKeeps(w: World, id: nat, size: nat, lastSeq: nat, heard: nat)
    requires Inv(w) && id < |w.relay.states|
    ensures Inv(w.(relay := Serve(w, id, size, lastSeq, heard)))
  {
    var p := w.relay.states[id];
    var ledger := LedgerOf(w.ledgers, p.session);
    var page := Page(ledger, p.afterSeq, size);
    LedgerIncreases(w, p.session);
    assert TellsTrue(w, id);
    if p.aborted {
      EndedKeeps(w, id);
    } else if p.phase == Opening {
      DrainedTold(p, ledger, size, lastSeq);
      PollReplacedKeeps(w, id, Drained(p, page, lastSeq));
    } else {
      var h := if heard <= |page| then heard else |page|;
      PushedTold(p, ledger, size, h);
      PollReplacedKeeps(w, id, Pushed(p, page[..h]));
    }
  }

  // ---------- stopping

  /** Stopping a subscription leaves what it told as it was. */
  ghost predicate SameTale(p: Poll, q: Poll) {
    && q.session == p.session && q.start == p.start && q.afterSeq == p.afterSeq
    && q.drained == p.drained && q.pushed == p.pushed && (q.phase == Opening ==> p.phase == Opening)
  }

  lemma SameTalesToldToo(w: World, s: Relay)
    requires AllTold(w) && |s.states| == |w.relay.states|
    requires forall id :: 0 <= id < |s.states| ==> SameTale(w.relay.states[id], s.states[id])
    ensures AllTold(w.(relay := s))
  {
    var v := w.(relay := s);
    forall id | 0 <= id < |s.states| ensures TellsTrue(v, id) {
      assert TellsTrue(w, id) && SameTale(w.relay.states[id], s.states[id]);
    }
  }

  lemma StoppedKeeps(w: World, id: nat)
    requires Inv(w) && id < |w.relay.states|
    ensures Inv(w.(relay := Stopped(w.relay, id)))
  {
    SameTalesToldToo(w, Stopped(w.relay, id));
  }

  lemma EndedKeeps(w: World, id: nat)
    requires Inv(w) && id < |w.relay.states|
    ensures Inv(w.(relay := Ended(w.relay, id)))
  {
    StoppedKeeps(w, id);
    SameTalesToldToo(w, Ended(w.relay, id));
  }

  lemma {:induction false} StoppedBelowKeeps(w: World, n: nat)
    requires Inv(w) && n <= |w.relay.states|
    ensures Inv(w.(relay := StoppedBelow(w.relay, n)))
    ensures forall id :: 0 <= id < n ==> StoppedBelow(w.relay, n).states[id].aborted
  {
    if n > 0 {
      StoppedBelowKeeps(w, n - 1);
      StoppedKeeps(w.(relay := StoppedBelow(w.relay, n - 1)), n - 1);
    }
  }

  /** With every subscription aborted, no window owns one. */
  lemma NoneOwned(r: Relay)
    requires OnePerWindow(r) && forall id :: 0 <= id < |r.states| ==> r.states[id].aborted
    ensures r.polls == map[]
  {
    forall window | window in r.polls ensures false {
      assert Owns(r, r.polls[window]);
    }
  }

  /** Closing aborts like resetting does; only the flag differs. */
  lemma {:induction false} StoppedBelowIgnoresClosed(r: Relay, n: nat)
    requires n <= |r.states|
    ensures StoppedBelow(r.(closed := true), n) == StoppedBelow(r, n).(closed := true)
  {
    if n > 0 { StoppedBelowIgnoresClosed(r, n - 1); }
  }

  /** A reset aborts every subscription. */
  lemma ResetSilences(w: World)
    requires Inv(w)
    ensures Inv(w.(relay := Reset(w.relay)))
    ensures forall id :: 0 <= id < |Reset(w.relay).states| ==> Reset(w.relay).states[id].aborted
  {
    StoppedBelowKeeps(w, |w.relay.states|);
    NoneOwned(StoppedBelow(w.relay, |w.relay.states|));
  }

  lemma CloseSilences(w: World)
    requires Inv(w)
    ensures Inv(w.(relay := Closed(w.relay)))
    ensures forall id :: 0 <= id < |Closed(w.relay).states| ==> Closed(w.relay).states[id].aborted
  {
    if w.relay.closed {
      forall id | 0 <= id < |w.relay.states| ensures w.relay.states[id].aborted {
        assert !Owns(w.relay, id);
      }
    } else {
      StoppedBelowKeeps(w, |w.relay.states|);
      NoneOwned(StoppedBelow(w.relay, |w.relay.states|));
      StoppedBelowIgnoresClosed(w.relay, |w.relay.states|);
      SameTalesToldToo(w.(relay := StoppedBelow(w.relay, |w.relay.states|)), Closed(w.relay));
    }
  }

  // ---------- subscribing

  lemma SubscribedKeeps(w: World, window: nat, session: string, afterSeq: nat)
    requires Inv(w)
    ensures Inv(w.(relay := Subscribed(w.relay, window, session, afterSeq)))
  {
    if !w.relay.closed {
      if window in w.relay.polls { StoppedKeeps(w, w.relay.polls[window]); }
      var v := w.(relay := PreviousStopped(w.relay, window));
      assert Inv(v) && window !in v.relay.polls;
      NewPollKeeps(v, window, session, afterSeq);
    }
  }

  lemma NewPollKeeps(w: World, window: nat, session: string, afterSeq: nat)
    requires Inv(w) && window !in w.relay.polls && !w.relay.closed
    ensures var p := Poll(window, session, afterSeq, afterSeq, false, Opening, [], []);
      Inv(w.(relay := w.relay.(polls := w.relay.polls[window := |w.relay.states|], states := w.relay.states + [p])))
  {
    NothingBetween(LedgerOf(w.ledgers, session), afterSeq, afterSeq);
    var p := Poll(window, session, afterSeq, afterSeq, false, Opening, [], []);
    var v := w.(relay := w.relay.(polls := w.relay.polls[window := |w.relay.states|], states := w.relay.states + [p]));
    forall id | 0 <= id < |v.relay.states| ensures TellsTrue(v, id) {
      if id < |w.relay.states| { assert TellsTrue(w, id); }
    }
  }

  /** A window that subscribes again aborts the subscription it had. */
  lemma SubscribingSilencesPrevious(r: Relay, window: nat, session: string, afterSeq: nat)
    requires OnePerWindow(r) && window in r.polls && !r.closed
    ensures var s := Subscribed(r, window, session, afterSeq);
      s.states[r.polls[window]].aborted && s.polls[window] == |r.states|
  {
  }

  // ---------- every run

  lemma StepKeeps(w: World, a: Action)
    requires Inv(w)
    ensures Inv(Step(w, a))
  {
    match a
    case Append(session, gap, body) => AppendKeeps(w, session, gap, body);
    case Open(window, session, afterSeq) => SubscribedKeeps(w, window, session, afterSeq);
    case PageArrives(id, size, lastSeq, heard) =>
      if id < |w.relay.states| { ServeKeeps(w, id, size, lastSeq, heard); }
    case PageFails(id) => if id < |w.relay.states| { EndedKeeps(w, id); }
    case WindowDestroyed(window) =>
      if window in w.relay.polls { StoppedKeeps(w, w.relay.polls[window]); }
    case ResetAll => ResetSilences(w);
    case Close => CloseSilences(w);
  }

  lemma {:induction false} RunKeeps(w: World, actions: seq<Action>)
    requires Inv(w)
    ensures Inv(Run(w, actions))
    decreases |actions|
  {
    if actions == [] {
    } else {
      StepKeeps(w, actions[0]);
      RunKeeps(Step(w, actions[0]), actions[1..]);
    }
  }

  /** Under any interleaving of appends, pages, failures, retries, subscriptions and resets,
      each subscription has handed over its ledger's segment from its start to its cursor,
      once and in order, and each window has at most one that is not aborted. */
  lemma NoGapsNoDuplicates(actions: seq<Action>)
    ensures var w := Run(START, actions);
      (forall id :: 0 <= id < |w.relay.states| ==> HandedOver(w, id)) && OnePerWindow(w.relay)
  {
    RunKeeps(START, actions);
    var w := Run(START, actions);
    forall id | 0 <= id < |w.relay.states| ensures HandedOver(w, id) {
      assert TellsTrue(w, id);
    }
  }

  ghost predicate HandedOver(w: World, id: nat)
    requires id < |w.relay.states|
  {
    var p := w.relay.states[id];
    p.drained + p.pushed == Segment(LedgerOf(w.ledgers, p.session), p.start, p.afterSeq)
  }

  // ---------- silence

  /** What a later state of the relay keeps of an earlier one: opening results never change
      once handed out, and aborted subscriptions never hand over anything more. */
  ghost predicate Extends(r: Relay, s: Relay) {
    && |r.states| <= |s.states|
    && (forall id :: 0 <= id < |r.states| ==> PollExtends(r.states[id], s.states[id]))
  }

  ghost predicate PollExtends(p: Poll, q: Poll) {
    && q.owner == p.owner && q.session == p.session && q.start == p.start
    && p.drained <= q.drained && p.pushed <= q.pushed
    && (p.phase != Opening ==> q.phase != Opening && q.drained == p.drained)
    && (p.aborted ==> q.aborted && q.drained == p.drained && q.pushed == p.pushed && q.afterSeq == p.afterSeq)
  }

  lemma OnePollExtends(r: Relay, id: nat, q: Poll, polls: map<nat, nat>)
    requires id < |r.states| && PollExtends(r.states[id], q)
    ensures Extends(r, r.(states := r.states[id := q], polls := polls))
  {
    forall k | 0 <= k < |r.states| ensures PollExtends(r.states[k], r.states[id := q][k]) {
    }
  }

  lemma StoppedExtends(r: Relay, id: nat)
    requires id < |r.states|
    ensures Extends(r, Stopped(r, id)) && Extends(r, Ended(r, id))
  {
    var p := r.states[id];
    OnePollExtends(r, id, p.(aborted := true), Stopped(r, id).polls);
    OnePollExtends(r, id, p.(aborted := true, phase := Over), Ended(r, id).polls);
    assert Ended(r, id).states == r.states[id := p.(aborted := true, phase := Over)];
  }

  lemma {:induction false} StoppedBelowExtends(r: Relay, n: nat)
    requires n <= |r.states|
    ensures Extends(r, StoppedBelow(r, n))
  {
    if n > 0 {
      StoppedBelowExtends(r, n - 1);
      var s := StoppedBelow(r, n - 1);
      StoppedExtends(s, n - 1);
      ExtendsChains(r, s, Stopped(s, n - 1));
    }
  }

  lemma PreviousStoppedExtends(r: Relay, window: nat)
    ensures Extends(r, PreviousStopped(r, window))
  {
    if window in r.polls && r.polls[window] < |r.states| { StoppedExtends(r, r.polls[window]); }
  }

  lemma SubscribedExtends(r: Relay, window: nat, session: string, afterSeq: nat)
    ensures Extends(r, Subscribed(r, window, session, afterSeq))
  {
    PreviousStoppedExtends(r, window);
    var s, t := PreviousStopped(r, window), Subscribed(r, window, session, afterSeq);
    forall k | 0 <= k < |r.states| && !r.closed ensures PollExtends(r.states[k], t.states[k]) {
      assert t.states[k] == s.states[k];
    }
  }

  lemma PageExtends(r: Relay, id: nat, page: seq<Event>, lastSeq: nat, heard: nat)
    requires id < |r.states| && heard <= |page|
    ensures Extends(r, PageTaken(r, id, page, lastSeq, heard))
  {
    var p := r.states[id];
    StoppedExtends(r, id);
    if p.phase == Opening && !p.aborted {
      OnePollExtends(r, id, Drained(p, page, lastSeq), r.polls);
    } else if p.phase == Polling && !p.aborted {
      OnePollExtends(r, id, Pushed(p, page[..heard]), r.polls);
    }
  }

  lemma StepExtends(w: World, a: Action)
    ensures Extends(w.relay, Step(w, a).relay)
  {
    match a
    case Append(session, gap, body) =>
    case Open(window, session, afterSeq) => SubscribedExtends(w.relay, window, session, afterSeq);
    case PageArrives(id, size, lastSeq, heard) =>
      if id < |w.relay.states| {
        var p := w.relay.states[id];
        var page := Page(LedgerOf(w.ledgers, p.session), p.afterSeq, size);
        PageExtends(w.relay, id, page, lastSeq, if heard <= |page| then heard else |page|);
      }
    case PageFails(id) => if id < |w.relay.states| { StoppedExtends(w.relay, id); }
    case WindowDestroyed(window) => PreviousStoppedExtends(w.relay, window);
    case ResetAll => StoppedBelowExtends(w.relay, |w.relay.states|);
    case Close => StoppedBelowExtends(w.relay.(closed := true), |w.relay.states|);
  }

  lemma ExtendsChains(r: Relay, s: Relay, t: Relay)
    requires Extends(r, s) && Extends(s, t)
    ensures Extends(r, t)
  {
    forall id | 0 <= id < |r.states| ensures PollExtends(r.states[id], t.states[id]) {
      PollExtendsChains(r.states[id], s.states[id], t.states[id]);
    }
  }

  lemma PollExtendsChains(p: Poll, q: Poll, o: Poll)
    requires PollExtends(p, q) && PollExtends(q, o)
    ensures PollExtends(p, o)
  {
  }

  /** Over every run, an aborted subscription pushes nothing more: after its window has
      subscribed again, was destroyed, or the relay was reset. */
  lemma {:induction false} AbortedStaysSilent(w: World, actions: seq<Action>)
    ensures Extends(w.relay, Run(w, actions).relay)
    decreases |actions|
  {
    if actions != [] {
      StepExtends(w, actions[0]);
      AbortedStaysSilent(Step(w, actions[0]), actions[1..]);
      ExtendsChains(w.relay, Step(w, actions[0]).relay, Run(w, actions).relay);
    }
  }

  lemma RunIsSilentFor(w: World, id: nat, a: Action, actions: seq<Action>)
    requires id < |w.relay.states| <= |Step(w, a).relay.states| && Step(w, a).relay.states[id].aborted
    requires Step(w, a).relay.states[id].drained == w.relay.states[id].drained
    requires Step(w, a).relay.states[id].pushed == w.relay.states[id].pushed
    ensures var v := Run(w, [a] + actions);
      id < |v.relay.states| && v.relay.states[id].pushed == w.relay.states[id].pushed
      && v.relay.states[id].drained == w.relay.states[id].drained
  {
    assert ([a] + actions)[1..] == actions;
    AbortedStaysSilent(Step(w, a), actions);
    assert PollExtends(Step(w, a).relay.states[id], Run(w, [a] + actions).relay.states[id]);
  }

  /** Once its window has subscribed again, a subscription hands over nothing, whatever
      happens later. */
  lemma ResubscribedIsSilent(w: World, window: nat, session: string, afterSeq: nat, actions: seq<Action>)
    requires Inv(w) && window in w.relay.polls && !w.relay.closed
    ensures var before := w.relay.polls[window]; var v := Run(w, [Open(window, session, afterSeq)] + actions);
      before < |v.relay.states| && v.relay.states[before].pushed == w.relay.states[before].pushed
      && v.relay.states[before].drained == w.relay.states[before].drained
  {
    SubscribingSilencesPrevious(w.relay, window, session, afterSeq);
    RunIsSilentFor(w, w.relay.polls[window], Open(window, session, afterSeq), actions);
  }

  lemma {:induction false} StoppedBelowHandsNothing(r: Relay, n: nat, id: nat)
    requires n <= |r.states| && id < |r.states|
    ensures SameTale(r.states[id], StoppedBelow(r, n).states[id])
  {
    if n > 0 { StoppedBelowHandsNothing(r, n - 1, id); }
  }

  /** After a reset, no earlier subscription hands over anything, whatever happens later. */
  lemma ResetIsSilent(w: World, id: nat, actions: seq<Action>)
    requires Inv(w) && id < |w.relay.states|
    ensures var v := Run(w, [ResetAll] + actions);
      id < |v.relay.states| && v.relay.states[id].pushed == w.relay.states[id].pushed
      && v.relay.states[id].drained == w.relay.states[id].drained
  {
    ResetSilences(w);
    StoppedBelowHandsNothing(w.relay, |w.relay.states|, id);
    RunIsSilentFor(w, id, ResetAll, actions);
  }

  // ---------- what ends a subscription

  /** The actions that abort a live subscription: its window opens another, or is destroyed;
      a failed page, while it is still opening; a reset or a close. */
  predicate Aborts(r: Relay, a: Action, id: nat)
    requires id < |r.states|
  {
    var p := r.states[id];
    match a
    case Open(window, _, _) => window == p.owner
    case WindowDestroyed(window) => window == p.owner
    case PageFails(failed) => failed == id && p.phase == Opening
    case ResetAll => true
    case Close => true
    case _ => false
  }

  lemma OnlyOneStopped(r: Relay, other: nat, id: nat)
    requires other < |r.states| && id < |r.states|
    ensures Stopped(r, other).states[id].aborted <==> r.states[id].aborted || other == id
    ensures Ended(r, other).states[id].aborted <==> r.states[id].aborted || other == id
  {
  }

  /** A live subscription is aborted exactly then: nothing else silences a window. In
      particular a poll outlives every failed page and every listener that raises. */
  lemma AbortedExactlyWhen(w: World, a: Action, id: nat)
    requires Inv(w) && id < |w.relay.states| && !w.relay.states[id].aborted
    ensures id < |Step(w, a).relay.states|
    ensures Step(w, a).relay.states[id].aborted <==> Aborts(w.relay, a, id)
  {
    var r := w.relay;
    assert Owns(r, id) && !r.closed;
    match a
    case Open(window, _, _) => if window in r.polls { OnlyOneStopped(r, r.polls[window], id); }
    case WindowDestroyed(window) => if window in r.polls { OnlyOneStopped(r, r.polls[window], id); }
    case PageFails(failed) => if failed < |r.states| { OnlyOneStopped(r, failed, id); }
    case PageArrives(other, _, _, _) => if other < |r.states| { OnlyOneStopped(r, other, id); }
    case ResetAll => ResetSilences(w);
    case Close => CloseSilences(w);
    case Append(_, _, _) =>
  }

  // ---------- complete openings, resumed subscriptions

  lemma {:induction false} SegmentReachesEnd(ledger: seq<Event>, from: nat, to: nat)
    requires Increasing(ledger) && to >= LastSeq(ledger)
    ensures Segment(ledger, from, to) == After(ledger, from)
  {
    forall e | e in ledger ensures e.number <= to {
      assert exists k :: 0 <= k < |ledger| && ledger[k] == e;
    }
    SegmentToTheEnd(ledger, from, to);
  }

  /** An opening that ends on an honest page holds everything behind its start. */
  lemma OpeningIsComplete(p: Poll, ledger: seq<Event>, size: nat)
    requires Told(p, ledger) && Increasing(ledger) && p.phase == Opening
    ensures var q := Drained(p, Page(ledger, p.afterSeq, size), LastSeq(ledger));
      q.phase == Polling ==> q.drained == After(ledger, p.start)
  {
    var q := Drained(p, Page(ledger, p.afterSeq, size), LastSeq(ledger));
    DrainedTold(p, ledger, size, LastSeq(ledger));
    assert q.drained + q.pushed == q.drained;
    if q.phase == Polling { SegmentReachesEnd(ledger, p.start, q.afterSeq); }
  }

  /** A subscription that starts at the cursor of an earlier one on the same session goes on
      exactly where that one stopped. */
  lemma ResumedWhereItStopped(w: World, first: nat, second: nat)
    requires Inv(w) && first < |w.relay.states| && second < |w.relay.states|
    requires var p, q := w.relay.states[first], w.relay.states[second];
      q.session == p.session && q.start == p.afterSeq
    ensures var p, q := w.relay.states[first], w.relay.states[second];
      p.drained + p.pushed + (q.drained + q.pushed) == Segment(LedgerOf(w.ledgers, p.session), p.start, q.afterSeq)
  {
    var p, q := w.relay.states[first], w.relay.states[second];
    LedgerIncreases(w, p.session);
    assert TellsTrue(w, first) && TellsTrue(w, second);
    SegmentsJoin(LedgerOf(w.ledgers, p.session), p.start, p.afterSeq, q.afterSeq);
  }

  // ---------- progress

  /** An append adds one event behind all others of its session, and changes no other. */
  lemma AppendAdds(w: World, session: string, gap: nat, body: string)
    ensures var v := Step(w, Append(session, gap, body));
      var ledger := if session in w.ledgers then w.ledgers[session] else [];
      var number := if ledger == [] then 1 + gap else ledger[|ledger| - 1].number + 1 + gap;
      && v.ledgers == w.ledgers[session := ledger + [Event(number, body)]] && v.relay == w.relay
  {
  }

  /** Opening makes a live subscription that starts at the given cursor and belongs to its
      window; the other windows keep theirs. A closed relay makes none. */
  lemma OpenSubscribes(w: World, window: nat, session: string, afterSeq: nat)
    requires Inv(w)
    ensures var r, s := w.relay, Step(w, Open(window, session, afterSeq)).relay;
      if r.closed then s == r
      else
        && |s.states| == |r.states| + 1
        && s.states[|r.states|] == Poll(window, session, afterSeq, afterSeq, false, Opening, [], [])
        && s.polls == r.polls[window := |r.states|]
        && (forall id :: 0 <= id < |r.states| && r.states[id].owner != window ==> s.states[id] == r.states[id])
  {
    var r, s := w.relay, Step(w, Open(window, session, afterSeq)).relay;
    if !r.closed {
      assert forall other :: other in s.polls <==> other == window || other in r.polls;
      assert s.polls == r.polls[window := |r.states|];
    }
  }

  function Least(a: nat, b: nat): nat {
    if a <= b then a else b
  }

  /** The number of the last event, or the cursor the poll had. */
  function CursorAfter(events: seq<Event>, cursor: nat): nat {
    if events == [] then cursor else events[|events| - 1].number
  }

  /** A page takes a live poll on by exactly the events heard: the first ones behind its
      cursor. It changes nothing else of the relay. */
  lemma PollMoves(w: World, id: nat, size: nat, lastSeq: nat, heard: nat)
    requires id < |w.relay.states| && w.relay.states[id].phase == Polling && !w.relay.states[id].aborted
    ensures var p, v := w.relay.states[id], Step(w, PageArrives(id, size, lastSeq, heard));
      var behind := After(LedgerOf(w.ledgers, p.session), p.afterSeq);
      var told := behind[..Least(heard, Least(size, |behind|))];
      && v.ledgers == w.ledgers && v.relay.polls == w.relay.polls && v.relay.closed == w.relay.closed
      && v.relay.states == w.relay.states[id :=
           Poll(p.owner, p.session, p.start, CursorAfter(told, p.afterSeq), false, Polling, p.drained, p.pushed + told)]
  {
    var p := w.relay.states[id];
    var behind := After(LedgerOf(w.ledgers, p.session), p.afterSeq);
    var page := Page(LedgerOf(w.ledgers, p.session), p.afterSeq, size);
    assert page == behind[..Least(size, |behind|)];
    assert page[..Least(heard, |page|)] == behind[..Least(heard, Least(size, |behind|))];
  }

  /** A page takes a live opening on by all the events served, and ends it when the cursor
      reaches the last number, and not before. */
  lemma OpeningMoves(w: World, id: nat, size: nat, lastSeq: nat, heard: nat)
    requires id < |w.relay.states| && w.relay.states[id].phase == Opening && !w.relay.states[id].aborted
    ensures var p, v := w.relay.states[id], Step(w, PageArrives(id, size, lastSeq, heard));
      var behind := After(LedgerOf(w.ledgers, p.session), p.afterSeq);
      var served := behind[..Least(size, |behind|)];
      var cursor := CursorAfter(served, p.afterSeq);
      && v.ledgers == w.ledgers && v.relay.polls == w.relay.polls && v.relay.closed == w.relay.closed
      && v.relay.states == w.relay.states[id := Poll(p.owner, p.session, p.start, cursor, false,
           if cursor >= lastSeq then Polling else Opening, p.drained + served, p.pushed)]
  {
    var p := w.relay.states[id];
    var behind := After(LedgerOf(w.ledgers, p.session), p.afterSeq);
    assert Page(LedgerOf(w.ledgers, p.session), p.afterSeq, size) == behind[..Least(size, |behind|)];
  }

  /** What is behind an event is what follows it. */
  lemma {:induction false} AfterDrops(ledger: seq<Event>, from: nat, m: nat)
    requires Increasing(ledger) && m <= |After(ledger, from)|
    ensures After(ledger, CursorAfter(After(ledger, from)[..m], from)) == After(ledger, from)[m..]
  {
    var behind := After(ledger, from);
    if m > 0 {
      var cursor := behind[m - 1].number;
      PageIsSegment(ledger, from, m);
      SegmentsJoin(ledger, from, cursor, Higher(LastSeq(ledger), cursor));
      SegmentReachesEnd(ledger, from, Higher(LastSeq(ledger), cursor));
      SegmentReachesEnd(ledger, cursor, Higher(LastSeq(ledger), cursor));
      assert behind == behind[..m] + After(ledger, cursor);
      assert behind[m..] == After(ledger, cursor);
    }
  }

  function Higher(a: nat, b: nat): nat {
    if a <= b then b else a
  }

  /** One page: how many events it may hold, and how many are heard before a listener raises. */
  datatype Serving = Serving(size: nat, heard: nat)

  function Pages(id: nat, servings: seq<Serving>): seq<Action> {
    seq(|servings|, k requires 0 <= k < |servings| => PageArrives(id, servings[k].size, 0, servings[k].heard))
  }

  function HeardIn(servings: seq<Serving>): nat {
    if servings == [] then 0 else Least(servings[0].size, servings[0].heard) + HeardIn(servings[1..])
  }

  /** Any number of pages hands over exactly as many of the events behind the cursor as were
      served and heard; pages that reach the end leave nothing behind. */
  lemma {:induction false} PagesHandOver(w: World, id: nat, servings: seq<Serving>)
    requires Inv(w) && id < |w.relay.states|
    requires w.relay.states[id].phase == Polling && !w.relay.states[id].aborted
    ensures var p, v := w.relay.states[id], Run(w, Pages(id, servings));
      var behind := After(LedgerOf(w.ledgers, p.session), p.afterSeq);
      && id < |v.relay.states| && v.ledgers == w.ledgers
      && v.relay.states[id].pushed == p.pushed + behind[..Least(HeardIn(servings), |behind|)]
      && v.relay.states[id].drained == p.drained && v.relay.states[id].phase == Polling
    decreases |servings|
  {
    var p := w.relay.states[id];
    var behind := After(LedgerOf(w.ledgers, p.session), p.afterSeq);
    if servings == [] {
      assert p.pushed + behind[..0] == p.pushed;
    } else {
      var a := PageArrives(id, servings[0].size, 0, servings[0].heard);
      var v := Step(w, a);
      var m := Least(servings[0].heard, Least(servings[0].size, |behind|));
      assert Pages(id, servings)[0] == a && Pages(id, servings)[1..] == Pages(id, servings[1..]);
      OnePage(w, id, servings[0]);
      PagesHandOver(v, id, servings[1..]);
      HandedInTwo(p.pushed, behind, Least(servings[0].size, servings[0].heard), HeardIn(servings[1..]));
    }
  }

  lemma OnePage(w: World, id: nat, s: Serving)
    requires Inv(w) && id < |w.relay.states|
    requires w.relay.states[id].phase == Polling && !w.relay.states[id].aborted
    ensures var p, v := w.relay.states[id], Step(w, PageArrives(id, s.size, 0, s.heard));
      var behind := After(LedgerOf(w.ledgers, p.session), p.afterSeq);
      var m := Least(Least(s.size, s.heard), |behind|);
      && Inv(v) && v.ledgers == w.ledgers && id < |v.relay.states|
      && v.relay.states[id] == Poll(p.owner, p.session, p.start, v.relay.states[id].afterSeq, false, Polling,
           p.drained, p.pushed + behind[..m])
      && After(LedgerOf(w.ledgers, p.session), v.relay.states[id].afterSeq) == behind[m..]
  {
    var p := w.relay.states[id];
    var behind := After(LedgerOf(w.ledgers, p.session), p.afterSeq);
    PollMoves(w, id, s.size, 0, s.heard);
    StepKeeps(w, PageArrives(id, s.size, 0, s.heard));
    LedgerIncreases(w, p.session);
    AfterDrops(LedgerOf(w.ledgers, p.session), p.afterSeq, Least(Least(s.size, s.heard), |behind|));
  }

  lemma HandedInTwo(pushed: seq<Event>, behind: seq<Event>, h: nat, k: nat)
    ensures var m := Least(h, |behind|);
      pushed + behind[..m] + behind[m..][..Least(k, |behind| - m)] == pushed + behind[..Least(h + k, |behind|)]
  {
    var m := Least(h, |behind|);
    assert behind[..m] + behind[m..][..Least(k, |behind| - m)] == behind[..Least(h + k, |behind|)];
  }

  /** Pages that reach the end, with every event heard, hand over the whole ledger behind
      the start of the subscription. */
  lemma PagesReachTheEnd(w: World, id: nat, servings: seq<Serving>)
    requires Inv(w) && id < |w.relay.states|
    requires w.relay.states[id].phase == Polling && !w.relay.states[id].aborted
    requires var p := w.relay.states[id];
      HeardIn(servings) >= |After(LedgerOf(w.ledgers, p.session), p.afterSeq)|
    ensures var p, q := w.relay.states[id], Run(w, Pages(id, servings)).relay.states;
      id < |q| && q[id].drained + q[id].pushed == After(LedgerOf(w.ledgers, p.session), p.start)
  {
    var p := w.relay.states[id];
    var ledger := LedgerOf(w.ledgers, p.session);
    var behind := After(ledger, p.afterSeq);
    PagesHandOver(w, id, servings);
    assert behind[..|behind|] == behind;
    assert TellsTrue(w, id);
    LedgerIncreases(w, p.session);
    TellsTheRest(p, ledger);
    var q := Run(w, Pages(id, servings)).relay.states[id];
    JoinsTheRest(p.drained, p.pushed, behind, q.pushed, After(ledger, p.start));
  }

  lemma JoinsTheRest(drained: seq<Event>, pushed: seq<Event>, behind: seq<Event>, now: seq<Event>, all: seq<Event>)
    requires now == pushed + behind && drained + pushed + behind == all
    ensures drained + now == all
  {
    assert drained + (pushed + behind) == drained + pushed + behind;
  }

  lemma TellsTheRest(p: Poll, ledger: seq<Event>)
    requires Told(p, ledger) && Increasing(ledger)
    ensures p.drained + p.pushed + After(ledger, p.afterSeq) == After(ledger, p.start)
  {
    var end := Higher(LastSeq(ledger), p.afterSeq);
    SegmentsJoin(ledger, p.start, p.afterSeq, end);
    SegmentReachesEnd(ledger, p.start, end);
    SegmentReachesEnd(ledger, p.afterSeq, end);
  }

  /** An opening ends with everything behind its start as soon as one page holds all that
      is behind its cursor. */
  lemma OpeningEnds(w: World, id: nat, size: nat, heard: nat)
    requires Inv(w) && id < |w.relay.states|
    requires w.relay.states[id].phase == Opening && !w.relay.states[id].aborted
    requires var p := w.relay.states[id]; size >= |After(LedgerOf(w.ledgers, p.session), p.afterSeq)|
    ensures var p := w.relay.states[id]; var ledger := LedgerOf(w.ledgers, p.session);
      var q := Step(w, PageArrives(id, size, LastSeq(ledger), heard)).relay.states;
      id < |q| && q[id].phase == Polling && q[id].drained == After(ledger, p.start)
  {
    var p := w.relay.states[id];
    var ledger := LedgerOf(w.ledgers, p.session);
    var behind := After(ledger, p.afterSeq);
    OpeningMoves(w, id, size, LastSeq(ledger), heard);
    assert TellsTrue(w, id) && behind[..|behind|] == behind;
    LedgerIncreases(w, p.session);
    TellsTheRest(p, ledger);
    assert p.drained + p.pushed == p.drained;
    LastIsBehind(ledger, p.afterSeq);
  }

  lemma LastIsBehind(ledger: seq<Event>, from: nat)
    requires Increasing(ledger)
    ensures CursorAfter(After(ledger, from), from) >= LastSeq(ledger)
  {
    if ledger != [] && LastSeq(ledger) > from {
      assert After(ledger, from)[|After(ledger, from)| - 1] == ledger[|ledger| - 1];
    } else {
      forall e | e in ledger ensures e.number <= from {
        assert exists k :: 0 <= k < |ledger| && ledger[k] == e;
      }
      NothingAfter(ledger, from);
    }
  }

  lemma PushedOneMore(p: Poll, heard: seq<Event>, event: Event)
    ensures Pushed(Pushed(p, heard), [event]) == Pushed(p, heard + [event])
  {
    assert p.pushed + (heard + [event]) == p.pushed + heard + [event];
  }

  // ---------- the relay's collections, updated in place

  class SessionRelay {
    var polls: map<nat, nat>
    var states: seq<Poll>
    var closed: bool

    ghost function State(): Relay
      reads this
    {
      Relay(polls, states, closed)
    }

    constructor ()
      ensures State() == FRESH
    {
      polls, states, closed := map[], [], false;
    }

    method StopPoll(id: nat)
      requires id < |states|
      modifies this
      ensures State() == Stopped(old(State()), id)
    {
      var p := states[id];
      states := states[id := p.(aborted := true)];
      if p.owner in polls && polls[p.owner] == id { polls := polls - {p.owner}; }
    }

    method OpenLedger(window: nat, session: string, afterSeq: nat)
      requires OnePerWindow(State())
      modifies this
      ensures State() == Subscribed(old(State()), window, session, afterSeq)
    {
      if closed { return; }
      if window in polls { StopPoll(polls[window]); }
      polls := polls[window := |states|];
      states := states + [Poll(window, session, afterSeq, afterSeq, false, Opening, [], [])];
    }

    method EndPoll(id: nat)
      requires id < |states|
      modifies this
      ensures State() == Ended(old(State()), id)
    {
      StopPoll(id);
      states := states[id := states[id].(phase := Over)];
    }

    /** One more page of the opening loop. */
    method DrainPage(id: nat, page: seq<Event>, lastSeq: nat)
      requires id < |states|
      modifies this
      ensures State() == old(State()).(states := old(states)[id := Drained(old(states)[id], page, lastSeq)])
    {
      var p := states[id];
      p := p.(drained := p.drained + page);
      if |page| > 0 { p := p.(afterSeq := page[|page| - 1].number); }
      if p.afterSeq >= lastSeq { p := p.(phase := Polling); }
      states := states[id := p];
    }

    /** Push the events of a polled page one by one, moving the cursor with each. */
    method PushPage(id: nat, page: seq<Event>, heard: nat)
      requires id < |states| && heard <= |page|
      modifies this
      ensures State() == old(State()).(states := old(states)[id := Pushed(old(states)[id], page[..heard])])
    {
      ghost var p := states[id];
      assert page[..0] == [] && p.pushed + [] == p.pushed;
      var k := 0;
      while k < heard
        invariant k <= heard && |states| == |old(states)| && polls == old(polls) && closed == old(closed)
        invariant states == old(states)[id := Pushed(p, page[..k])]
      {
        var event := page[k];
        assert page[..k + 1] == page[..k] + [event];
        PushedOneMore(p, page[..k], event);
        states := states[id := states[id].(pushed := states[id].pushed + [event], afterSeq := event.number)];
        k := k + 1;
      }
    }

    method TakePage(id: nat, page: seq<Event>, lastSeq: nat, heard: nat)
      requires id < |states| && heard <= |page|
      modifies this
      ensures State() == PageTaken(old(State()), id, page, lastSeq, heard)
    {
      var phase := states[id].phase;
      if phase == Over { return; }
      if states[id].aborted {
        EndPoll(id);
      } else if phase == Opening {
        DrainPage(id, page, lastSeq);
      } else {
        PushPage(id, page, heard);
      }
    }

    method FailPage(id: nat)
      requires id < |states|
      modifies this
      ensures State() == PageFailed(old(State()), id)
    {
      var p := states[id];
      if p.phase == Opening || (p.phase == Polling && p.aborted) { EndPoll(id); }
    }

    method OnDestroyed(window: nat)
      requires OnePerWindow(State())
      modifies this
      ensures State() == PreviousStopped(old(State()), window)
    {
      if window in polls { StopPoll(polls[window]); }
    }

    /** Stop every subscription a window still owns, oldest first. */
    method StopAll()
      modifies this
      ensures State() == StoppedBelow(old(State()), |old(states)|)
    {
      var id := 0;
      while id < |states|
        invariant id <= |states| == |old(states)|
        invariant State() == StoppedBelow(old(State()), id)
      {
        var owner := states[id].owner;
        if owner in polls && polls[owner] == id { StopPoll(id); }
        id := id + 1;
      }
    }

    method ResetPolls()
      modifies this
      ensures State() == Reset(old(State()))
    {
      StopAll();
      polls := map[];
    }

    method Close()
      modifies this
      ensures State() == Closed(old(State()))
    {
      if closed { return; }
      closed := true;
      StopAll();
    }
  }
}
