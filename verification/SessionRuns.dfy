/** What consumers of a process session may rely on, over every run. */
module SessionRuns {
  import opened Utf8
  import opened EventQueues
  import opened SessionSpec
  import opened Wrappers

  /** In order, bounded, with at most one start frame, and ending in error? exit once the tree
      is terminated and the files are released. */
  ghost predicate SoundStream(s: Session) {
    var q := s.feed.queue;
    && q.delivered + q.items == q.accepted && |q.items| <= MAX_QUEUED_EVENTS
    && StartFrames(q.accepted) <= 1
    && (if s.Published()
        then s.ending.tree.Terminated? && s.ending.released.Some? && Complete(q.accepted, s.feed.closing.value)
        else Ordinary(q.accepted))
  }

  /** The closing report names a failure to confirm the tree gone, and is empty only without. */
  predicate Reports(c: Closing, failure: Option<string>) {
    match failure
    case Some(why) => c.report.Some? && c.report.value.leftover == Some(TreeAlive(why))
    case None => true
  }

  /** A clean end is never reported for a tree that may still be alive, files are released as
      a success only after exit code zero without a failure, and a cancel that succeeds has
      confirmed the tree gone. */
  ghost predicate HidesNothing(s: Session) {
    && (s.Published() ==> s.ending.tree.Terminated? && Reports(s.feed.closing.value, s.ending.tree.failure))
    && (s.ending.released.Some? && s.ending.released.value.success ==>
        && s.Terminal()
        && s.feed.settlement.value.value.facts.code == Some(0) && s.feed.settlement.value.message.None?)
    && (s.ending.cancel == Cancelled ==> s.Published() && s.ending.tree == Terminated(None))
  }

  lemma InvMeansSound(s: Session)
    requires Inv(s)
    ensures SoundStream(s) && HidesNothing(s)
  {
  }

  /** The event stream of every run is sound. */
  lemma EveryRun(actions: seq<Action>)
    ensures Inv(Run(INITIAL, actions)) && SoundStream(Run(INITIAL, actions))
  {
    RunKeepsInv(INITIAL, actions);
    InvMeansSound(Run(INITIAL, actions));
  }

  /** No run hides what it could not clean up. */
  lemma NoSilentFailure(actions: seq<Action>)
    ensures HidesNothing(Run(INITIAL, actions))
  {
    RunKeepsInv(INITIAL, actions);
    InvMeansSound(Run(INITIAL, actions));
  }

  // ---------- one outcome

  lemma StepKeepsOutcome(s: Session, a: Action)
    requires Inv(s)
    ensures s.Terminal() ==> Step(s, a).feed.settlement == s.feed.settlement
    ensures s.Published() ==> Step(s, a).feed.closing == s.feed.closing
    ensures s.Published() ==> Step(s, a).feed.queue.accepted == s.feed.queue.accepted
    ensures s.Published() ==> s.feed.queue.delivered <= Step(s, a).feed.queue.delivered
  {
    if !a.Publish? { StepMoves(s, a); }
    if s.Published() {
      PublishedIsQuiet(s, a);
    }
  }

  lemma PublishedIsQuiet(s: Session, a: Action)
    requires s.Terminal() && s.Published()
    ensures Step(s, a).feed.queue == (if a.Consume? then Pulled(s.feed.queue) else s.feed.queue)
  {
    match a
    case Attach(_, _, _, _) =>
    case LaunchFails(_) =>
    case Cancel =>
    case Consume =>
    case Publish(_) =>
    case _ => if s.child.attached { ChildIsQuiet(s, a); }
  }

  lemma ChildIsQuiet(s: Session, a: Action)
    requires s.Terminal()
    ensures FeedAfterChild(s, a).queue == s.feed.queue
  {
  }

  /** The first settlement is the outcome, and publication ends the stream for good:
      whatever happens afterwards adds no event and changes no fact. */
  lemma {:induction false} OutcomeIsFinal(s: Session, actions: seq<Action>)
    requires Inv(s)
    ensures var t := Run(s, actions);
      && (s.Terminal() ==> t.feed.settlement == s.feed.settlement)
      && (s.Published() ==> t.feed.closing == s.feed.closing)
      && (s.Published() ==> t.feed.queue.accepted == s.feed.queue.accepted)
    decreases |actions|
  {
    if actions == [] {
    } else {
      StepKeepsInv(s, actions[0]);
      StepKeepsOutcome(s, actions[0]);
      OutcomeIsFinal(Step(s, actions[0]), actions[1..]);
    }
  }

  function Pulls(n: nat): seq<Action> {
    seq(n, _ => Consume)
  }

  lemma {:induction false} PullsDrain(s: Session, n: nat)
    ensures Run(s, Pulls(n)).feed.queue == Drained(s.feed.queue, n)
    decreases n
  {
    if n == 0 {
    } else {
      assert Pulls(n)[1..] == Pulls(n - 1);
      assert Step(s, Consume).feed.queue == Pulled(s.feed.queue);
      PullsDrain(Step(s, Consume), n - 1);
    }
  }

  /** No terminal frame is ever dropped: from any published state, consuming what is queued
      hands out every frame that was taken in, the exit frame last. */
  lemma EveryFrameIsDelivered(actions: seq<Action>)
    requires Run(INITIAL, actions).Published()
    ensures var s := Run(INITIAL, actions);
      var d := Run(s, Pulls(|s.feed.queue.items|)).feed.queue;
      && s.Terminal() && d.delivered == s.feed.queue.accepted && d.items == []
      && d.delivered != [] && d.delivered[|d.delivered| - 1] == Event.Exit(s.feed.settlement.value.value.facts)
  {
    RunKeepsInv(INITIAL, actions);
    var s := Run(INITIAL, actions);
    PullsDrain(s, |s.feed.queue.items|);
    DrainDeliversEverything(s.feed.queue);
    CompleteEndsInExit(s.feed.queue.accepted, s.feed.closing.value);
  }

  lemma CompleteEndsInExit(all: seq<Event>, c: Closing)
    requires Complete(all, c)
    ensures all != [] && all[|all| - 1] == Event.Exit(c.facts)
  {
    var n :| 0 <= n <= |all| && Ordinary(all[..n]) && all[n..] == ClosingFrames(c);
    assert all[|all| - 1] == all[n..][|all| - n - 1];
  }

  // ---------- the start frame

  /** The order Node keeps: no output before the child is known to have started. */
  ghost predicate OutputAfterStart(s: Session, actions: seq<Action>)
    decreases |actions|
  {
    actions != [] ==>
      && (actions[0].StdoutData? || actions[0].StderrData? ==> s.feed.started)
      && OutputAfterStart(Step(s, actions[0]), actions[1..])
  }

  predicate StartLeads(events: seq<Event>) {
    events != [] && events[0].Started?
  }

  /** The start frame leads, and it is missing exactly when the run settled before it. */
  ghost predicate StartInv(f: Feed) {
    if f.settlement.Some? then
      if f.settlement.value.afterStart then StartLeads(f.queue.accepted)
      else forall e :: e in f.queue.accepted ==> e.Error? || e.Exit?
    else if f.started then StartLeads(f.queue.accepted) && !f.queue.closed
    else f.queue.accepted == [] && f.queue.items == [] && !f.queue.closed
  }

  lemma EnterKeepsLead(q: Queue<Event>, e: Event)
    ensures Enter(q, e).accepted == q.accepted + [e]
    ensures StartLeads(q.accepted) ==> StartLeads(q.accepted + [e])
  {
  }

  lemma ConfirmedKeepsStart(f: Feed, facts: ExitFacts, pid: Option<int>)
    requires StartInv(f)
    ensures StartInv(Confirmed(f, facts, pid)) && Confirmed(f, facts, pid).started
  {
  }

  lemma DataKeepsStart(f: Feed, g: Feed, facts: ExitFacts, e: Event)
    requires StartInv(f) && f.started && f.settlement.None?
    requires g == f.(stdout := g.stdout, stderr := g.stderr)
    ensures StartInv(Accepted(g, facts, e))
  {
    EnterKeepsLead(g.queue, e);
  }

  lemma FinishedKeepsStart(f: Feed, c: Closing)
    requires StartInv(f) && f.settlement.Some? && QueueInv(f) && f.closing.None?
    ensures StartInv(Finished(f, c))
  {
    FinishedQueue(f, c);
  }

  lemma ChildKeepsStart(s: Session, a: Action)
    requires StartInv(s.feed)
    requires a.StdoutData? || a.StderrData? ==> s.feed.started
    ensures StartInv(FeedAfterChild(s, a))
  {
    match a
    case Spawn(pid) => ConfirmedKeepsStart(s.feed, s.child.facts, pid);
    case NativeClose(pid, facts) => ConfirmedKeepsStart(s.feed, facts, pid);
    case DrainFires(pid) => ConfirmedKeepsStart(s.feed, s.child.facts, pid);
    case StdoutData(chunk) =>
      if !s.Terminal() {
        DataKeepsStart(s.feed, s.feed.(stdout := s.feed.stdout + chunk), s.child.facts, Stdout(chunk));
      }
    case StderrData(chunk) =>
      if !s.Terminal() {
        DataKeepsStart(s.feed, s.feed.(stderr := s.feed.stderr + chunk), s.child.facts, Stderr(chunk));
      }
    case _ =>
  }

  lemma PublishKeepsStart(s: Session, homeFailure: Option<string>)
    requires StartInv(s.feed) && QueueInv(s.feed) && ReadyToPublish(s)
    ensures StartInv(FeedAfter(s, Publish(homeFailure)))
  {
    var o := s.feed.settlement.value;
    FinishedKeepsStart(s.feed, Closing(ReportOf(o, s.ending.tree, homeFailure), o.value.facts));
  }

  lemma StepKeepsStart(s: Session, a: Action)
    requires QueueInv(s.feed) && StartInv(s.feed)
    requires a.StdoutData? || a.StderrData? ==> s.feed.started
    ensures StartInv(Step(s, a).feed)
  {
    match a
    case Attach(pid, replay, _, _) =>
      if replay.Some? { ConfirmedKeepsStart(s.feed, replay.value, pid); }
    case Publish(homeFailure) => if ReadyToPublish(s) { PublishKeepsStart(s, homeFailure); }
    case LaunchFails(_) =>
    case Cancel =>
    case Consume =>
    case _ => if s.child.attached { ChildKeepsStart(s, a); }
  }

  /** When output follows the start, `started` is the first frame of the stream; a stream
      without it holds no output, and belongs to a run that settled before the start. */
  lemma {:induction false} StartComesFirst(s: Session, actions: seq<Action>)
    requires Inv(s) && StartInv(s.feed) && OutputAfterStart(s, actions)
    ensures StartInv(Run(s, actions).feed)
    decreases |actions|
  {
    if actions == [] {
    } else {
      StepKeepsInv(s, actions[0]);
      StepKeepsStart(s, actions[0]);
      StartComesFirst(Step(s, actions[0]), actions[1..]);
    }
  }

  /** The action confirms the start of a session that runs and has not started. */
  predicate Confirms(s: Session, a: Action) {
    !s.Terminal() && !s.feed.started && match a
      case Attach(_, replay, _, _) => Launching(s) && replay.Some?
      case Spawn(_) => s.child.attached
      case NativeClose(_, _) => s.child.attached
      case DrainFires(_) => s.child.attached && s.timers.drain && !s.child.closed
      case _ => false
  }

  /** The action settles a session that has not started, without confirming it. */
  predicate SettlesUnstarted(s: Session, a: Action) {
    !s.Terminal() && !s.feed.started && match a
      case LaunchFails(_) => Launching(s)
      case Attach(_, replay, aborted, _) =>
        Launching(s) && replay.None? && aborted && s.ending.cancel == NotCancelled
      case Cancel => s.child.launched && s.ending.cancel == NotCancelled
      case NativeError(_) => s.child.attached && !s.child.closed
      case StreamFault(_) => s.child.attached
      case ProvenanceResumes => s.child.attached && s.child.provenanceFault.Some? && s.ending.tree.Terminated?
      case TimeoutFires => s.child.attached && s.timers.timeout
      case StartupFires(_) => s.child.attached && s.timers.startup
      case Write(sinkAvailable) => s.child.attached && !s.child.inputClosed && !sinkAvailable
      case _ => false
  }

  /** Some action confirms the start before any settles the session. */
  predicate StartsFirst(s: Session, actions: seq<Action>)
    decreases |actions|
  {
    actions != [] &&
    (Confirms(s, actions[0])
     || (!SettlesUnstarted(s, actions[0]) && StartsFirst(Step(s, actions[0]), actions[1..])))
  }

  lemma ChildBeforeStart(s: Session, a: Action)
    requires !s.Terminal() && !s.feed.started && s.child.attached && !a.StdoutData? && !a.StderrData?
    requires !a.LaunchFails? && !a.Attach? && !a.Cancel? && !a.Consume? && !a.Publish?
    ensures var f := FeedAfterChild(s, a);
      && f.started == Confirms(s, a)
      && (!f.started ==> (f.settlement.Some? <==> SettlesUnstarted(s, a)))
      && (f.settlement.Some? ==> f.settlement.value.afterStart == f.started)
  {
  }

  lemma StepBeforeStart(s: Session, a: Action)
    requires !s.Terminal() && !s.feed.started && !a.StdoutData? && !a.StderrData?
    ensures var f := Step(s, a).feed;
      && f.started == Confirms(s, a)
      && (!f.started ==> (f.settlement.Some? <==> SettlesUnstarted(s, a)))
      && (f.settlement.Some? ==> f.settlement.value.afterStart == f.started)
  {
    match a
    case LaunchFails(_) =>
    case Attach(_, _, _, _) =>
    case Cancel =>
    case Consume =>
    case Publish(_) =>
    case _ => if s.child.attached { ChildBeforeStart(s, a); }
  }

  lemma ChildAfterStart(s: Session, a: Action)
    requires !s.Terminal() && s.feed.started
    ensures var f := FeedAfterChild(s, a); f.started && (f.settlement.Some? ==> f.settlement.value.afterStart)
  {
  }

  lemma StepAfterStart(s: Session, a: Action)
    requires !s.Terminal() && s.feed.started
    ensures var f := Step(s, a).feed; f.started && (f.settlement.Some? ==> f.settlement.value.afterStart)
  {
    match a
    case LaunchFails(_) =>
    case Attach(_, _, _, _) =>
    case Cancel =>
    case Consume =>
    case Publish(_) =>
    case _ => if s.child.attached { ChildAfterStart(s, a); }
  }

  lemma {:induction false} SettledAfterStartWhen(s: Session, actions: seq<Action>)
    requires Inv(s) && !s.Terminal() && OutputAfterStart(s, actions) && Run(s, actions).Terminal()
    ensures Run(s, actions).feed.settlement.value.afterStart <==> s.feed.started || StartsFirst(s, actions)
    decreases |actions|
  {
    if actions != [] {
      var a, rest := actions[0], actions[1..];
      StepKeepsInv(s, a);
      if s.feed.started { StepAfterStart(s, a); } else { StepBeforeStart(s, a); }
      if Step(s, a).Terminal() {
        OutcomeIsFinal(Step(s, a), rest);
      } else {
        SettledAfterStartWhen(Step(s, a), rest);
      }
    }
  }

  /** The start frame is not promised before every terminal frame: a published stream has it
      exactly when some action of the run confirmed the start before any settled the run. */
  lemma StartFrameExactlyWhen(actions: seq<Action>)
    requires OutputAfterStart(INITIAL, actions) && Run(INITIAL, actions).Published()
    ensures StartLeads(Run(INITIAL, actions).feed.queue.accepted) <==> StartsFirst(INITIAL, actions)
  {
    RunKeepsInv(INITIAL, actions);
    StartComesFirst(INITIAL, actions);
    SettledAfterStartWhen(INITIAL, actions);
    var all := Run(INITIAL, actions).feed.queue.accepted;
    assert all != [] ==> all[0] in all;
  }

  lemma RunOne(s: Session, a: Action, rest: seq<Action>)
    ensures Run(s, [a] + rest) == Run(Step(s, a), rest)
  {
    assert ([a] + rest)[1..] == rest;
  }

  /** Cancelling right after the launch publishes error and exit without a start frame. */
  lemma CancelledBeforeStart()
    ensures var s := Run(INITIAL, [Attach(Some(7), None, false, false)] + ([Cancel] + ([TreeEnds(None)] +
        ([FilesReleased] + ([Publish(None)] + [])))));
      s.Published() && s.feed.queue.accepted == [Error(Report(Some(CancelledRun), None)), Event.Exit(NO_EXIT)]
  {
    var s1 := Step(INITIAL, Attach(Some(7), None, false, false));
    var s2 := Step(s1, Cancel);
    var s3 := Step(s2, TreeEnds(None));
    var s4 := Step(s3, FilesReleased);
    var s5 := Step(s4, Publish(None));
    RunOne(INITIAL, Attach(Some(7), None, false, false),
      [Cancel] + ([TreeEnds(None)] + ([FilesReleased] + ([Publish(None)] + []))));
    RunOne(s1, Cancel, [TreeEnds(None)] + ([FilesReleased] + ([Publish(None)] + [])));
    RunOne(s2, TreeEnds(None), [FilesReleased] + ([Publish(None)] + []));
    RunOne(s3, FilesReleased, [Publish(None)] + []);
    RunOne(s4, Publish(None), []);
    CancelledSteps();
  }

  lemma CancelledSteps()
    ensures var s1 := Step(INITIAL, Attach(Some(7), None, false, false));
      var s4 := Step(Step(Step(s1, Cancel), TreeEnds(None)), FilesReleased);
      var s5 := Step(s4, Publish(None));
      s5.Published() && s5.feed.queue.accepted == [Error(Report(Some(CancelledRun), None)), Event.Exit(NO_EXIT)]
  {
    CancelledUntilReleased();
    var s1 := Step(INITIAL, Attach(Some(7), None, false, false));
    PublishStep(Step(Step(Step(s1, Cancel), TreeEnds(None)), FilesReleased), None);
  }

  lemma CancelledUntilReleased()
    ensures var s1 := Step(INITIAL, Attach(Some(7), None, false, false));
      var s4 := Step(Step(Step(s1, Cancel), TreeEnds(None)), FilesReleased);
      && ReadyToPublish(s4) && s4.feed.queue == Empty() && s4.ending.tree == Terminated(None)
      && s4.feed.settlement == Some(Settlement(Snapshot([], [], NO_EXIT), false, Some(CancelledRun), false))
  {
  }
}
