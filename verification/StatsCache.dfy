/** The shell's statistics cache: one read at a time for the active endpoint, the last good
    snapshot while the endpoint stays the same, and nothing from an endpoint left behind. */
module StatsCaches {
  import opened Wrappers

  /** What a read of the endpoint brings back. */
  datatype Snapshot = Snapshot(data: string, fetchedAt: int)
  datatype Reply = Good(snapshot: Snapshot) | Bad(error: string)

  /** What the callers of a read get. */
  datatype Outcome =
    | Fresh(snapshot: Snapshot)
    | Stale(snapshot: Snapshot, error: string, failures: nat)
    | Failed(error: string)
    | Discarded

  datatype Phase = Waiting | Replied | Finished
  datatype Read = Read(generation: nat, phase: Phase)

  /** One settled read: the generation it was begun in, and the one that was current then. */
  datatype Settlement = Settlement(generation: nat, current: nat, reply: Reply, outcome: Outcome)

  /** The connection's generation, the four variables of the cache, and what happened. */
  datatype Cache = Cache(
    current: nat, generation: int, lastGood: Option<Snapshot>, inFlight: Option<nat>, failures: nat,
    begun: seq<Read>, history: seq<Settlement>)

  const FRESH := Cache(0, -1, None, None, 0, [], [])

  // ---------- steps

  /** An endpoint switch, or the first read, drops every value of an earlier generation. */
  function Fenced(c: Cache): Cache {
    if c.current == c.generation then c
    else c.(generation := c.current, lastGood := None, inFlight := None, failures := 0)
  }

  function Called(c: Cache): Cache {
    var f := Fenced(c);
    if f.inFlight != None then f
    else f.(inFlight := Some(|f.begun|), begun := f.begun + [Read(f.current, Waiting)])
  }

  function SettledWith(c: Cache, generation: nat, reply: Reply): Cache {
    if generation != c.current then c.(history := c.history + [Settlement(generation, c.current, reply, Discarded)])
    else
      match reply
      case Good(snapshot) =>
        c.(lastGood := Some(snapshot), failures := 0,
           history := c.history + [Settlement(generation, c.current, reply, Fresh(snapshot))])
      case Bad(error) =>
        var outcome := if c.lastGood.Some? then Stale(c.lastGood.value, error, c.failures + 1) else Failed(error);
        c.(failures := c.failures + 1, history := c.history + [Settlement(generation, c.current, reply, outcome)])
  }

  function ReplyTaken(c: Cache, id: nat, reply: Reply): Cache {
    if id >= |c.begun| || c.begun[id].phase != Waiting then c
    else SettledWith(c.(begun := c.begun[id := c.begun[id].(phase := Replied)]), c.begun[id].generation, reply)
  }

  function ReadFinished(c: Cache, id: nat): Cache {
    if id >= |c.begun| || c.begun[id].phase != Replied then c
    else
      c.(begun := c.begun[id := c.begun[id].(phase := Finished)],
         inFlight := if c.inFlight == Some(id) then None else c.inFlight)
  }

  datatype Action = Switch(ahead: nat) | Call | ReplyArrives(id: nat, reply: Reply) | Finishes(id: nat)

  function Step(c: Cache, a: Action): Cache {
    match a
    case Switch(ahead) => c.(current := c.current + 1 + ahead)
    case Call => Called(c)
    case ReplyArrives(id, reply) => ReplyTaken(c, id, reply)
    case Finishes(id) => ReadFinished(c, id)
  }

  function Run(c: Cache, actions: seq<Action>): Cache
    decreases |actions|
  {
    if actions == [] then c else Run(Step(c, actions[0]), actions[1..])
  }

  // ---------- what the variables mean, told from the history alone

  predicate Counts(s: Settlement, generation: int) {
    s.generation == s.current == generation
  }

  /** The failures since the last success of a generation. */
  function FailuresSince(history: seq<Settlement>, generation: int): nat {
    if history == [] then 0
    else
      var init, last := history[..|history| - 1], history[|history| - 1];
      if !Counts(last, generation) then FailuresSince(init, generation)
      else if last.reply.Good? then 0
      else FailuresSince(init, generation) + 1
  }

  /** The last success of a generation. */
  function LastGood(history: seq<Settlement>, generation: int): Option<Snapshot> {
    if history == [] then None
    else
      var init, last := history[..|history| - 1], history[|history| - 1];
      if Counts(last, generation) && last.reply.Good? then Some(last.reply.snapshot) else LastGood(init, generation)
  }

  /** What the callers of a read have to get, given everything settled before it. */
  function Expected(before: seq<Settlement>, generation: nat, current: nat, reply: Reply): Outcome {
    if generation != current then Discarded
    else
      match reply
      case Good(snapshot) => Fresh(snapshot)
      case Bad(error) =>
        match LastGood(before, generation)
        case Some(good) => Stale(good, error, FailuresSince(before, generation) + 1)
        case None => Failed(error)
  }

  ghost predicate Told(history: seq<Settlement>) {
    forall i :: 0 <= i < |history| ==> ToldAt(history, i)
  }

  ghost predicate ToldAt(history: seq<Settlement>, i: nat)
    requires i < |history|
  {
    var s := history[i];
    s.outcome == Expected(history[..i], s.generation, s.current, s.reply)
  }

  /** The cached values are what the history says of the cache's generation. */
  ghost predicate Remembers(c: Cache) {
    && c.failures == FailuresSince(c.history, c.generation)
    && c.lastGood == LastGood(c.history, c.generation)
    && Told(c.history)
  }

  ghost predicate Bounded(c: Cache) {
    && -1 <= c.generation <= c.current
    && (forall i :: 0 <= i < |c.begun| ==> c.begun[i].generation <= c.generation)
    && (forall i :: 0 <= i < |c.history| ==> c.history[i].generation <= c.generation)
  }

  /** One unfinished read for each generation; the cache knows that of its own. */
  ghost predicate SingleFlight(c: Cache) {
    && (c.inFlight.Some? ==> OwnUnfinished(c, c.inFlight.value))
    && (forall i :: 0 <= i < |c.begun| && c.begun[i].phase != Finished && c.begun[i].generation == c.generation ==>
          c.inFlight == Some(i))
    && (forall i, j :: 0 <= i < j < |c.begun| && c.begun[i].phase != Finished && c.begun[j].phase != Finished ==>
          c.begun[i].generation != c.begun[j].generation)
  }

  predicate OwnUnfinished(c: Cache, id: nat) {
    id < |c.begun| && c.begun[id].generation == c.generation && c.begun[id].phase != Finished
  }

  ghost predicate Inv(c: Cache) {
    Remembers(c) && Bounded(c) && SingleFlight(c)
  }

  // ---------- every step keeps it

  /** A generation in which nothing was settled has no failures and no snapshot. */
  lemma {:induction false} NothingRemembered(history: seq<Settlement>, generation: int)
    requires forall i :: 0 <= i < |history| ==> history[i].generation < generation
    ensures FailuresSince(history, generation) == 0 && LastGood(history, generation) == None
  {
    if history != [] { NothingRemembered(history[..|history| - 1], generation); }
  }

  lemma FencedKeeps(c: Cache)
    requires Inv(c)
    ensures Inv(Fenced(c)) && Fenced(c).generation == c.current
  {
    if c.current != c.generation { NothingRemembered(c.history, c.current); }
  }

  lemma CalledKeeps(c: Cache)
    requires Inv(c)
    ensures Inv(Called(c))
  {
    FencedKeeps(c);
  }

  lemma ToldExtends(history: seq<Settlement>, s: Settlement)
    requires Told(history) && s.outcome == Expected(history, s.generation, s.current, s.reply)
    ensures Told(history + [s])
  {
    var more := history + [s];
    forall i | 0 <= i < |more| ensures ToldAt(more, i) {
      if i < |history| {
        assert more[..i] == history[..i] && ToldAt(history, i);
      } else {
        assert more[..i] == history;
      }
    }
  }

  lemma RemembersOneMore(history: seq<Settlement>, s: Settlement, generation: int)
    ensures FailuresSince(history + [s], generation) ==
      if !Counts(s, generation) then FailuresSince(history, generation)
      else if s.reply.Good? then 0 else FailuresSince(history, generation) + 1
    ensures LastGood(history + [s], generation) ==
      if Counts(s, generation) && s.reply.Good? then Some(s.reply.snapshot) else LastGood(history, generation)
  {
    assert (history + [s])[..|history|] == history;
  }

  lemma SettledKeeps(c: Cache, generation: nat, reply: Reply)
    requires Remembers(c) && Bounded(c) && generation <= c.generation
    ensures Remembers(SettledWith(c, generation, reply)) && Bounded(SettledWith(c, generation, reply))
  {
    var s := Settlement(generation, c.current, reply, Expected(c.history, generation, c.current, reply));
    ToldExtends(c.history, s);
    RemembersOneMore(c.history, s, c.generation);
    assert SettledWith(c, generation, reply).history == c.history + [s];
  }

  lemma ReplyKeeps(c: Cache, id: nat, reply: Reply)
    requires Inv(c)
    ensures Inv(ReplyTaken(c, id, reply))
  {
    if id < |c.begun| && c.begun[id].phase == Waiting {
      var r := c.(begun := c.begun[id := c.begun[id].(phase := Replied)]);
      assert SingleFlight(r);
      SettledKeeps(r, c.begun[id].generation, reply);
      var d := SettledWith(r, c.begun[id].generation, reply);
      assert d.begun == r.begun && d.inFlight == r.inFlight && d.generation == r.generation;
    }
  }

  lemma FinishedKeeps(c: Cache, id: nat)
    requires Inv(c)
    ensures Inv(ReadFinished(c, id))
  {
  }

  lemma {:induction false} RunKeeps(c: Cache, actions: seq<Action>)
    requires Inv(c)
    ensures Inv(Run(c, actions))
    decreases |actions|
  {
    if actions == [] {
    } else {
      match actions[0] {
        case Switch(ahead) => assert Inv(Step(c, actions[0]));
        case Call => CalledKeeps(c);
        case ReplyArrives(id, reply) => ReplyKeeps(c, id, reply);
        case Finishes(id) => FinishedKeeps(c, id);
      }
      RunKeeps(Step(c, actions[0]), actions[1..]);
    }
  }

  /** Over every interleaving of calls, replies and switches: what callers get and what the
      cache remembers are functions of the settlements alone, the failure count is the number
      of failures since the last success of the cache's generation, and at most one read of
      each generation is unfinished. */
  lemma EveryRun(actions: seq<Action>)
    ensures Inv(Run(FRESH, actions))
  {
    RunKeeps(FRESH, actions);
  }

  // ---------- no snapshot crosses a switch

  predicate ReadIn(s: Settlement, generation: nat, snapshot: Snapshot) {
    Counts(s, generation) && s.reply == Good(snapshot)
  }

  lemma {:induction false} LastGoodWasRead(history: seq<Settlement>, generation: nat)
    requires LastGood(history, generation).Some?
    ensures var good := LastGood(history, generation).value;
      exists k :: 0 <= k < |history| && ReadIn(history[k], generation, good)
  {
    var init, last := history[..|history| - 1], history[|history| - 1];
    if Counts(last, generation) && last.reply.Good? {
      assert ReadIn(history[|history| - 1], generation, last.reply.snapshot);
    } else {
      LastGoodWasRead(init, generation);
      var good := LastGood(init, generation).value;
      var k :| 0 <= k < |init| && ReadIn(init[k], generation, good);
      assert history[k] == init[k];
    }
  }

  /** A success, fresh or stale, carries a snapshot that was read and settled in the very
      generation that is current when it is handed out. */
  lemma SuccessIsOfThisGeneration(actions: seq<Action>, i: nat)
    requires i < |Run(FRESH, actions).history|
    requires var o := Run(FRESH, actions).history[i].outcome; o.Fresh? || o.Stale?
    ensures var h := Run(FRESH, actions).history; var o := h[i].outcome;
      exists k :: 0 <= k <= i && ReadIn(h[k], h[i].current, o.snapshot)
  {
    RunKeeps(FRESH, actions);
    var h := Run(FRESH, actions).history;
    assert ToldAt(h, i);
    var o := h[i].outcome;
    if o.Fresh? {
      assert ReadIn(h[i], h[i].current, o.snapshot);
    } else {
      LastGoodWasRead(h[..i], h[i].current);
      var k :| 0 <= k < i && ReadIn(h[..i][k], h[i].current, o.snapshot);
      assert h[..i][k] == h[k];
    }
  }

  /** A caller always joins a read of the generation that is current when it calls. */
  lemma CallJoinsCurrent(c: Cache)
    requires Inv(c)
    ensures var d := Called(c);
      d.inFlight.Some? && d.begun[d.inFlight.value].generation == c.current
      && d.begun[d.inFlight.value].phase != Finished
  {
    FencedKeeps(c);
  }

  // ---------- replies are handed out, reads end, and the next call begins another

  lemma {:induction false} RunOneMore(c: Cache, actions: seq<Action>, a: Action)
    ensures Run(c, actions + [a]) == Step(Run(c, actions), a)
    decreases |actions|
  {
    if actions == [] {
      assert Run(Step(c, a), [a][1..]) == Step(c, a);
    } else {
      assert (actions + [a])[1..] == actions[1..] + [a];
      RunOneMore(Step(c, actions[0]), actions[1..], a);
    }
  }

  /** The reads begun by the first `k` actions. */
  function BegunBefore(actions: seq<Action>, k: nat): nat
    requires k <= |actions|
  {
    |Run(FRESH, actions[..k]).begun|
  }

  /** A reply to a read that was begun. */
  predicate Answers(actions: seq<Action>, k: nat, id: nat)
    requires k < |actions|
  {
    actions[k].ReplyArrives? && actions[k].id == id && id < BegunBefore(actions, k)
  }

  ghost predicate Answered(actions: seq<Action>, id: nat) {
    exists k: nat :: k < |actions| && Answers(actions, k, id)
  }

  /** The read was answered, and its final handler ran after that. */
  ghost predicate Ended(actions: seq<Action>, id: nat) {
    exists m: nat :: m < |actions| && EndsAt(actions, m, id)
  }

  ghost predicate EndsAt(actions: seq<Action>, m: nat, id: nat)
    requires m < |actions|
  {
    actions[m] == Finishes(id) && Answered(actions[..m], id)
  }

  lemma AnsweredOneMore(actions: seq<Action>, a: Action, id: nat)
    ensures Answered(actions + [a], id) <==>
      Answered(actions, id) || (a.ReplyArrives? && a.id == id && id < |Run(FRESH, actions).begun|)
  {
    var more := actions + [a];
    forall k: nat | k < |actions| ensures Answers(more, k, id) <==> Answers(actions, k, id) {
      assert more[..k] == actions[..k];
    }
    assert more[..|actions|] == actions;
    if Answered(actions, id) {
      var k: nat :| k < |actions| && Answers(actions, k, id);
      assert Answers(more, k, id);
    } else if a.ReplyArrives? && a.id == id && id < |Run(FRESH, actions).begun| {
      assert Answers(more, |actions|, id);
    }
  }

  lemma EndedOneMore(actions: seq<Action>, a: Action, id: nat)
    ensures Ended(actions + [a], id) <==> Ended(actions, id) || (a == Finishes(id) && Answered(actions, id))
  {
    var more := actions + [a];
    forall m: nat | m < |actions| ensures EndsAt(more, m, id) <==> EndsAt(actions, m, id) {
      assert more[..m] == actions[..m];
    }
    assert more[..|actions|] == actions;
    if Ended(actions, id) {
      var m: nat :| m < |actions| && EndsAt(actions, m, id);
      assert EndsAt(more, m, id);
    } else if a == Finishes(id) && Answered(actions, id) {
      assert EndsAt(more, |actions|, id);
    }
  }

  ghost function PhaseTold(actions: seq<Action>, id: nat): Phase {
    if Ended(actions, id) then Finished else if Answered(actions, id) then Replied else Waiting
  }

  lemma CalledPhases(c: Cache, id: nat)
    requires id < |Called(c).begun|
    ensures Called(c).begun[id].phase == if id < |c.begun| then c.begun[id].phase else Waiting
    ensures id < |c.begun| ==> Called(c).begun[id] == c.begun[id]
    ensures id >= |c.begun| ==> id == |c.begun|
  {
  }

  lemma {:induction false} NotBegunNotAnswered(actions: seq<Action>, id: nat)
    requires id >= |Run(FRESH, actions).begun|
    ensures !Answered(actions, id) && !Ended(actions, id)
    decreases |actions|
  {
    if actions != [] {
      var init, a := actions[..|actions| - 1], actions[|actions| - 1];
      assert actions == init + [a];
      RunOneMore(FRESH, init, a);
      assert |Run(FRESH, init).begun| <= |Run(FRESH, actions).begun|;
      NotBegunNotAnswered(init, id);
      AnsweredOneMore(init, a, id);
      EndedOneMore(init, a, id);
    }
  }

  /** Over every run, how far a read has come is what the actions say: answered by its first
      reply, ended by its final handler behind that reply. */
  lemma {:induction false} PhaseIsTold(actions: seq<Action>, id: nat)
    requires id < |Run(FRESH, actions).begun|
    ensures Run(FRESH, actions).begun[id].phase == PhaseTold(actions, id)
    decreases |actions|
  {
    if actions != [] {
      var init, a := actions[..|actions| - 1], actions[|actions| - 1];
      assert actions == init + [a];
      RunOneMore(FRESH, init, a);
      AnsweredOneMore(init, a, id);
      EndedOneMore(init, a, id);
      if id < |Run(FRESH, init).begun| {
        PhaseIsTold(init, id);
      } else {
        NotBegunNotAnswered(init, id);
        CalledPhases(Run(FRESH, init), id);
      }
    }
  }

  /** A read that was answered and whose final handler ran frees the slot. */
  lemma EndedFreesSlot(actions: seq<Action>, id: nat)
    requires Ended(actions, id)
    ensures Run(FRESH, actions).inFlight != Some(id)
  {
    RunKeeps(FRESH, actions);
    if id < |Run(FRESH, actions).begun| { PhaseIsTold(actions, id); }
  }

  ghost predicate NoneUnended(actions: seq<Action>) {
    var c := Run(FRESH, actions);
    forall i: nat :: i < |c.begun| && c.begun[i].generation == c.current ==> Ended(actions, i)
  }

  /** A call begins a new read exactly when every read of the current generation has ended;
      otherwise it joins the one that has not. */
  lemma CallBeginsExactlyWhen(actions: seq<Action>)
    ensures var c, d := Run(FRESH, actions), Run(FRESH, actions + [Call]);
      if NoneUnended(actions)
      then d.begun == c.begun + [Read(c.current, Waiting)] && d.inFlight == Some(|c.begun|)
      else d.begun == c.begun && d.inFlight.Some? && d.inFlight.value < |c.begun|
           && c.begun[d.inFlight.value].generation == c.current && !Ended(actions, d.inFlight.value)
  {
    RunKeeps(FRESH, actions);
    RunOneMore(FRESH, actions, Call);
    var c := Run(FRESH, actions);
    CallJoinsCurrent(c);
    forall i: nat | i < |c.begun| ensures Ended(actions, i) <==> c.begun[i].phase == Finished {
      PhaseIsTold(actions, i);
    }
  }

  /** The first reply to a read is settled as the history before it says; nothing else is. */
  lemma SettlesExactlyWhen(actions: seq<Action>, a: Action)
    ensures var c, d := Run(FRESH, actions), Run(FRESH, actions + [a]);
      if a.ReplyArrives? && a.id < |c.begun| && !Answered(actions, a.id)
      then
        var began := c.begun[a.id].generation;
        d.history == c.history
          + [Settlement(began, c.current, a.reply, Expected(c.history, began, c.current, a.reply))]
      else d.history == c.history
  {
    RunKeeps(FRESH, actions);
    RunOneMore(FRESH, actions, a);
    var c := Run(FRESH, actions);
    if a.ReplyArrives? && a.id < |c.begun| {
      PhaseIsTold(actions, a.id);
      if Ended(actions, a.id) { EndedWasAnswered(actions, a.id); }
      StepSettles(c, a.id, a.reply);
    }
  }

  lemma StepSettles(c: Cache, id: nat, reply: Reply)
    requires Inv(c) && id < |c.begun|
    ensures var began := c.begun[id].generation;
      ReplyTaken(c, id, reply).history ==
        if c.begun[id].phase != Waiting then c.history
        else c.history + [Settlement(began, c.current, reply, Expected(c.history, began, c.current, reply))]
  {
  }

  lemma EndedWasAnswered(actions: seq<Action>, id: nat)
    requires Ended(actions, id)
    ensures Answered(actions, id)
  {
    var m: nat :| m < |actions| && EndsAt(actions, m, id);
    var k: nat :| k < m && Answers(actions[..m], k, id);
    assert actions[..m][..k] == actions[..k] && Answers(actions, k, id);
  }

  /** A switch leaves every read behind: whatever was begun before it is discarded. */
  lemma SwitchDiscards(actions: seq<Action>, ahead: nat, id: nat)
    requires id < |Run(FRESH, actions).begun|
    ensures var d := Run(FRESH, actions + [Switch(ahead)]);
      id < |d.begun| && d.begun[id].generation < d.current == Run(FRESH, actions).current + ahead + 1
  {
    RunKeeps(FRESH, actions);
    RunOneMore(FRESH, actions, Switch(ahead));
  }

  // ---------- the cache's variables, updated in place

  class StatsCache {
    var statsGeneration: int
    var statsLastGood: Option<Snapshot>
    var statsInFlight: Option<nat>
    var statsConsecutiveFailures: nat
    // The connection's generation, the reads ever begun, and the settlements.
    var current: nat
    var begun: seq<Read>
    ghost var history: seq<Settlement>

    ghost function State(): Cache
      reads this
    {
      Cache(current, statsGeneration, statsLastGood, statsInFlight, statsConsecutiveFailures, begun, history)
    }

    constructor ()
      ensures State() == FRESH
    {
      statsGeneration, statsLastGood, statsInFlight, statsConsecutiveFailures := -1, None, None, 0;
      current, begun, history := 0, [], [];
    }

    method SwitchConnection(ahead: nat)
      modifies this`current
      ensures State() == Step(old(State()), Switch(ahead))
    {
      current := current + 1 + ahead;
    }

    /** Returns the read the caller waits for. */
    method ReadStatsForShell() returns (id: nat)
      requires Inv(State())
      modifies this
      ensures State() == Called(old(State()))
      ensures id < |begun| && begun[id].generation == current && statsInFlight == Some(id)
    {
      CallJoinsCurrent(State());
      if current != statsGeneration {
        statsGeneration := current;
        statsLastGood := None;
        statsInFlight := None;
        statsConsecutiveFailures := 0;
      }
      if statsInFlight.Some? { return statsInFlight.value; }
      id := |begun|;
      begun := begun + [Read(current, Waiting)];
      statsInFlight := Some(id);
    }

    method OnReply(id: nat, reply: Reply) returns (outcome: Outcome)
      requires id < |begun| && begun[id].phase == Waiting
      modifies this
      ensures State() == ReplyTaken(old(State()), id, reply)
      ensures outcome == history[|history| - 1].outcome
    {
      var generation := begun[id].generation;
      begun := begun[id := begun[id].(phase := Replied)];
      if generation != current {
        outcome := Discarded;
      } else if reply.Good? {
        statsLastGood := Some(reply.snapshot);
        statsConsecutiveFailures := 0;
        outcome := Fresh(reply.snapshot);
      } else {
        statsConsecutiveFailures := statsConsecutiveFailures + 1;
        if statsLastGood.Some? {
          outcome := Stale(statsLastGood.value, reply.error, statsConsecutiveFailures);
        } else {
          outcome := Failed(reply.error);
        }
      }
      history := history + [Settlement(generation, current, reply, outcome)];
    }

    method OnFinally(id: nat)
      modifies this
      ensures State() == ReadFinished(old(State()), id)
    {
      if id >= |begun| || begun[id].phase != Replied { return; }
      begun := begun[id := begun[id].(phase := Finished)];
      if statsInFlight == Some(id) { statsInFlight := None; }
    }
  }
}
