/** How a run ends, told from what happened to it: which action settles a session, on which
    exit facts and with which message, and that consumers get to see just that. */
module SessionOutcomes {
  import opened Utf8
  import opened EventQueues
  import opened SessionSpec
  import opened SessionRuns
  import opened Wrappers

  lemma {:induction false} RunOneMore(s: Session, actions: seq<Action>, a: Action)
    ensures Run(s, actions + [a]) == Step(Run(s, actions), a)
    decreases |actions|
  {
    if actions == [] {
      assert Run(Step(s, a), [a][1..]) == Step(s, a);
    } else {
      assert (actions + [a])[1..] == actions[1..] + [a];
      RunOneMore(Step(s, actions[0]), actions[1..], a);
    }
  }

  // ---------- what the actions so far say of a session that still runs

  /** The action that attached the child. */
  function Launch(actions: seq<Action>): (launch: Option<Action>)
    ensures launch.Some? ==> launch.value.Attach?
  {
    if actions == [] then None
    else
      var init, last := actions[..|actions| - 1], actions[|actions| - 1];
      if Launch(init).Some? then Launch(init) else if last.Attach? then Some(last) else None
  }

  predicate Spawned(actions: seq<Action>) {
    actions != [] &&
    var init, last := actions[..|actions| - 1], actions[|actions| - 1];
    Spawned(init) || (last.Spawn? && Launch(init).Some?)
  }

  /** The first exit event of the attached child. */
  function ExitSeen(actions: seq<Action>): Option<ExitFacts> {
    if actions == [] then None
    else
      var init, last := actions[..|actions| - 1], actions[|actions| - 1];
      if ExitSeen(init).Some? then ExitSeen(init)
      else if last.NativeExit? && Launch(init).Some? then Some(last.facts) else None
  }

  /** The last error event of the attached child. */
  function ErrorSeen(actions: seq<Action>): Option<string> {
    if actions == [] then None
    else
      var init, last := actions[..|actions| - 1], actions[|actions| - 1];
      if last.NativeError? && Launch(init).Some? then Some(last.message) else ErrorSeen(init)
  }

  /** The first failure to record where the child came from. */
  function FaultSeen(actions: seq<Action>): Option<string> {
    if actions == [] then None
    else
      var init, last := actions[..|actions| - 1], actions[|actions| - 1];
      if FaultSeen(init).Some? then FaultSeen(init)
      else if last.ProvenanceFails? && Launch(init).Some? then Some(last.message) else None
  }

  predicate InputEnded(actions: seq<Action>) {
    actions != [] &&
    var init, last := actions[..|actions| - 1], actions[|actions| - 1];
    InputEnded(init) || (last.CloseInput? && Launch(init).Some?)
  }

  /** The tree is terminated while the session runs only for a failed provenance record. */
  function TreeSeen(actions: seq<Action>): Tree {
    if actions == [] then Untouched
    else
      var init, last := actions[..|actions| - 1], actions[|actions| - 1];
      if last.ProvenanceFails? && Launch(init).Some? && TreeSeen(init) == Untouched then Terminating
      else if last.TreeEnds? && TreeSeen(init) == Terminating then Terminated(last.failure)
      else TreeSeen(init)
  }

  /** What one stream of the attached child produced. */
  function StreamSeen(actions: seq<Action>, diagnostics: bool): seq<Byte> {
    if actions == [] then []
    else
      var init, last := actions[..|actions| - 1], actions[|actions| - 1];
      if Launch(init).None? then []
      else if diagnostics && last.StderrData? then StreamSeen(init, diagnostics) + last.chunk
      else if !diagnostics && last.StdoutData? then StreamSeen(init, diagnostics) + last.chunk
      else StreamSeen(init, diagnostics)
  }

  /** The frames of everything the attached child reported. */
  function FramesSeen(actions: seq<Action>): seq<Event> {
    if actions == [] then []
    else
      var init, last := actions[..|actions| - 1], actions[|actions| - 1];
      if Launch(init).None? then []
      else
        match last
        case Spawn(pid) => if Spawned(init) then FramesSeen(init) else FramesSeen(init) + [Event.Started(pid)]
        case StdoutData(chunk) => FramesSeen(init) + [Stdout(chunk)]
        case StderrData(chunk) => FramesSeen(init) + [Stderr(chunk)]
        case _ => FramesSeen(init)
  }

  function PullsSeen(actions: seq<Action>): nat {
    if actions == [] then 0
    else PullsSeen(actions[..|actions| - 1]) + (if actions[|actions| - 1].Consume? then 1 else 0)
  }

  function FactsSeen(actions: seq<Action>): ExitFacts {
    if ExitSeen(actions).Some? then ExitSeen(actions).value else NO_EXIT
  }

  ghost predicate FeedTold(f: Feed, actions: seq<Action>) {
    && f.started == Spawned(actions) && f.settlement.None? && f.closing.None?
    && f.stdout == StreamSeen(actions, false) && f.stderr == StreamSeen(actions, true)
    && f.queue.accepted == FramesSeen(actions) && !f.queue.closed
    && |f.queue.delivered| + f.queue.waiters == PullsSeen(actions)
  }

  ghost predicate ChildTold(c: Child, actions: seq<Action>) {
    && c.launched == c.attached == Launch(actions).Some? && !c.closed
    && c.inputClosed == InputEnded(actions) && c.facts == FactsSeen(actions)
    && c.startError == ErrorSeen(actions) && c.provenanceFault == FaultSeen(actions)
  }

  /** The timers are armed with the child: the caller's own, the startup timer until the
      start, and the drain timer from the exit on. */
  ghost predicate TimersTold(t: Timers, actions: seq<Action>) {
    && (Launch(actions).None? ==> t == Timers(false, false, false))
    && (Launch(actions).Some? ==>
          t == Timers(Launch(actions).value.timeout, !Spawned(actions), ExitSeen(actions).Some?))
  }

  ghost predicate EndingTold(e: Ending, actions: seq<Action>) {
    && e.tree == TreeSeen(actions) && e.released.None? && e.cancel == NotCancelled
    && e.start == if Spawned(actions) then StartResolved else StartPending
  }

  /** The session runs, and each of its parts is what the actions so far say. */
  ghost predicate Follows(s: Session, actions: seq<Action>) {
    && FeedTold(s.feed, actions) && ChildTold(s.child, actions)
    && TimersTold(s.timers, actions) && EndingTold(s.ending, actions)
  }

  lemma {:induction false} Unattached(actions: seq<Action>)
    requires Launch(actions).None?
    ensures !Spawned(actions) && ExitSeen(actions).None? && ErrorSeen(actions).None? && FaultSeen(actions).None?
    ensures !InputEnded(actions) && TreeSeen(actions) == Untouched && FramesSeen(actions) == []
    ensures StreamSeen(actions, false) == [] == StreamSeen(actions, true)
    decreases |actions|
  {
    if actions != [] { Unattached(actions[..|actions| - 1]); }
  }

  lemma {:induction false} FaultTerminates(actions: seq<Action>)
    ensures FaultSeen(actions).None? <==> TreeSeen(actions) == Untouched
    decreases |actions|
  {
    if actions != [] { FaultTerminates(actions[..|actions| - 1]); }
  }

  // ---------- every action of a running session keeps it told

  lemma ChildStaysTold(s: Session, actions: seq<Action>, a: Action)
    requires Follows(s, actions) && !Step(s, a).Terminal()
    ensures ChildTold(Step(s, a).child, actions + [a])
  {
    assert (actions + [a])[..|actions|] == actions;
    Unattached([]);
    if Launch(actions).None? { Unattached(actions); }
    match a
    case NativeExit(facts) =>
    case NativeClose(pid, facts) => assert !s.child.attached;
    case Attach(pid, replay, _, _) =>
    case _ =>
  }

  lemma EndingStaysTold(s: Session, actions: seq<Action>, a: Action)
    requires Follows(s, actions) && !Step(s, a).Terminal()
    ensures EndingTold(Step(s, a).ending, actions + [a])
  {
    assert (actions + [a])[..|actions|] == actions;
    if Launch(actions).None? { Unattached(actions); }
    TreeStaysTold(s, actions, a);
  }

  lemma TreeStaysTold(s: Session, actions: seq<Action>, a: Action)
    requires Follows(s, actions) && !Step(s, a).Terminal()
    ensures Step(s, a).ending.tree == TreeSeen(actions + [a])
  {
    assert (actions + [a])[..|actions|] == actions;
    if Launch(actions).None? { Unattached(actions); }
    FaultTerminates(actions);
  }

  lemma TimersStayTold(s: Session, actions: seq<Action>, a: Action)
    requires Follows(s, actions) && !Step(s, a).Terminal()
    ensures TimersTold(Step(s, a).timers, actions + [a])
  {
    assert (actions + [a])[..|actions|] == actions;
    if Launch(actions).None? { Unattached(actions); }
  }

  lemma FeedStaysTold(s: Session, actions: seq<Action>, a: Action)
    requires Follows(s, actions) && !Step(s, a).Terminal()
    ensures FeedTold(Step(s, a).feed, actions + [a])
  {
    if Launch(actions).None? {
      UnattachedFeed(s, actions, a);
    } else if a.StdoutData? || a.StderrData? {
      DataFeed(s, actions, a);
    } else {
      ChildFeed(s, actions, a);
    }
  }

  lemma UnattachedFeed(s: Session, actions: seq<Action>, a: Action)
    requires Follows(s, actions) && !Step(s, a).Terminal() && Launch(actions).None?
    ensures FeedTold(Step(s, a).feed, actions + [a])
  {
    assert (actions + [a])[..|actions|] == actions;
    Unattached(actions);
  }

  lemma DataFeed(s: Session, actions: seq<Action>, a: Action)
    requires Follows(s, actions) && !Step(s, a).Terminal() && Launch(actions).Some?
    requires a.StdoutData? || a.StderrData?
    ensures FeedTold(Step(s, a).feed, actions + [a])
  {
    assert (actions + [a])[..|actions|] == actions;
  }

  lemma ChildFeed(s: Session, actions: seq<Action>, a: Action)
    requires Follows(s, actions) && !Step(s, a).Terminal() && Launch(actions).Some?
    requires !a.StdoutData? && !a.StderrData?
    ensures FeedTold(Step(s, a).feed, actions + [a])
  {
    assert (actions + [a])[..|actions|] == actions;
  }

  lemma {:induction false} RunIsTold(actions: seq<Action>)
    requires !Run(INITIAL, actions).Terminal()
    ensures Follows(Run(INITIAL, actions), actions)
    decreases |actions|
  {
    if actions != [] {
      var init, a := actions[..|actions| - 1], actions[|actions| - 1];
      assert actions == init + [a];
      RunOneMore(INITIAL, init, a);
      var s := Run(INITIAL, init);
      RunKeepsInv(INITIAL, init);
      StepKeepsOutcome(s, a);
      RunIsTold(init);
      ChildStaysTold(s, init, a);
      EndingStaysTold(s, init, a);
      TimersStayTold(s, init, a);
      FeedStaysTold(s, init, a);
    }
  }

  // ---------- the verdict

  /** What a session settles on: the exit facts it publishes, whether they are a success, and
      why it failed. */
  datatype Verdict = Verdict(facts: ExitFacts, success: bool, message: Option<Fault>)

  function Ending(facts: ExitFacts): Option<Verdict> {
    Some(Verdict(facts, facts.code == Some(0), None))
  }

  function Failing(facts: ExitFacts, fault: Fault): Option<Verdict> {
    Some(Verdict(facts, false, Some(fault)))
  }

  /** The consumer is so far behind that only the reserved slots are free. */
  predicate Full(actions: seq<Action>) {
    |FramesSeen(actions)| >= PullsSeen(actions) + MAX_QUEUED_EVENTS - RESERVED_TERMINAL_EVENTS
  }

  /** How an action ends a session that still runs after the actions so far, if it does. */
  function VerdictOf(actions: seq<Action>, a: Action): Option<Verdict> {
    if Launch(actions).None? then
      match a
      case LaunchFails(message) => Failing(NO_EXIT, if message == "" then NotLaunched else Told(message))
      case Attach(_, Some(facts), _, _) => Ending(facts)
      case Attach(_, None, true, _) => Failing(NO_EXIT, CancelledRun)
      case _ => None
    else
      var overflows := !Spawned(actions) && Full(actions);
      match a
      case NativeClose(_, facts) =>
        if overflows then Failing(facts, Overflow)
        else if ErrorSeen(actions).Some? && facts == NO_EXIT then Failing(facts, Told(ErrorSeen(actions).value))
        else Ending(facts)
      case DrainFires(_) =>
        if ExitSeen(actions).None? then None
        else if overflows then Failing(ExitSeen(actions).value, Overflow)
        else Ending(ExitSeen(actions).value)
      case _ =>
        var fault := FaultOf(actions, a);
        if fault.Some? then Failing(FactsSeen(actions), fault.value) else None
  }

  /** The failures of an attached child that are no exits. */
  function FaultOf(actions: seq<Action>, a: Action): Option<Fault>
    requires Launch(actions).Some?
  {
    match a
    case Spawn(_) => if !Spawned(actions) && Full(actions) then Some(Overflow) else None
    case StdoutData(_) => if Full(actions) then Some(Overflow) else None
    case StderrData(_) => if Full(actions) then Some(Overflow) else None
    case NativeError(message) => if Spawned(actions) then None else Some(Told(message))
    case StreamFault(message) => Some(Told(message))
    case ProvenanceResumes =>
      if FaultSeen(actions).Some? && TreeSeen(actions).Terminated? then Some(Unrecorded(FaultSeen(actions).value))
      else None
    case TimeoutFires => if Launch(actions).value.timeout then Some(TimedOut) else None
    case StartupFires(diagnosis) =>
      if Spawned(actions) then None
      else if diagnosis.Some? then Some(Diagnosed(diagnosis.value)) else Some(NotStarted)
    case Cancel => Some(CancelledRun)
    case Write(sinkAvailable) => if InputEnded(actions) || sinkAvailable then None else Some(InputUnavailable)
    case _ => None
  }

  ghost predicate SettledOn(f: Feed, v: Verdict, out: seq<Byte>, err: seq<Byte>) {
    && f.settlement.Some?
    && f.settlement.value == Settlement(Snapshot(out, err, v.facts), v.success, v.message, f.started)
  }

  lemma FullMeansRefused(s: Session, actions: seq<Action>)
    requires Follows(s, actions) && Fifo(s.feed.queue)
    ensures Refuses(s.feed.queue, MAX_QUEUED_EVENTS) <==> Full(actions)
  {
    assert |s.feed.queue.delivered| + |s.feed.queue.items| == |FramesSeen(actions)|;
  }

  lemma UnattachedSettles(s: Session, actions: seq<Action>, a: Action)
    requires Follows(s, actions) && Fifo(s.feed.queue) && Launch(actions).None?
    ensures var f := Step(s, a).feed;
      match VerdictOf(actions, a)
      case None => f.settlement.None?
      case Some(v) => SettledOn(f, v, [], [])
  {
    Unattached(actions);
    FullMeansRefused(s, actions);
  }

  lemma ChildSettles(s: Session, actions: seq<Action>, a: Action)
    requires Follows(s, actions) && Fifo(s.feed.queue) && Launch(actions).Some?
    ensures var f := Step(s, a).feed;
      match VerdictOf(actions, a)
      case None => f.settlement.None?
      case Some(v) => SettledOn(f, v, StreamSeen(actions + [a], false), StreamSeen(actions + [a], true))
  {
    if a.NativeClose? || a.DrainFires? {
      ExitSettles(s, actions, a);
    } else {
      FaultSettles(s, actions, a);
    }
  }

  lemma ExitSettles(s: Session, actions: seq<Action>, a: Action)
    requires Follows(s, actions) && Fifo(s.feed.queue) && Launch(actions).Some? && (a.NativeClose? || a.DrainFires?)
    ensures var f := Step(s, a).feed;
      match VerdictOf(actions, a)
      case None => f.settlement.None?
      case Some(v) => SettledOn(f, v, StreamSeen(actions + [a], false), StreamSeen(actions + [a], true))
  {
    assert (actions + [a])[..|actions|] == actions;
    FullMeansRefused(s, actions);
  }

  lemma FaultSettles(s: Session, actions: seq<Action>, a: Action)
    requires Follows(s, actions) && Fifo(s.feed.queue) && Launch(actions).Some? && !a.NativeClose? && !a.DrainFires?
    ensures var f := Step(s, a).feed;
      match VerdictOf(actions, a)
      case None => f.settlement.None?
      case Some(v) => SettledOn(f, v, StreamSeen(actions + [a], false), StreamSeen(actions + [a], true))
  {
    assert (actions + [a])[..|actions|] == actions;
    FullMeansRefused(s, actions);
    FaultTerminates(actions);
  }

  // ---------- the first verdict of a run is its outcome

  ghost predicate NoVerdict(actions: seq<Action>) {
    forall j: nat :: j < |actions| ==> VerdictOf(actions[..j], actions[j]).None?
  }

  lemma NoVerdictOneMore(actions: seq<Action>, a: Action)
    ensures NoVerdict(actions + [a]) <==> NoVerdict(actions) && VerdictOf(actions, a).None?
  {
    var more := actions + [a];
    assert more[..|actions|] == actions && more[|actions|] == a;
    forall j: nat | j < |actions| ensures more[..j] == actions[..j] && more[j] == actions[j] {
    }
    if NoVerdict(more) {
      forall j: nat | j < |actions| ensures VerdictOf(actions[..j], actions[j]).None? {
        assert VerdictOf(more[..j], more[j]).None?;
      }
    }
  }

  /** A session that follows its actions settles on their verdict, and on nothing else. */
  lemma StepSettles(actions: seq<Action>, a: Action)
    requires !Run(INITIAL, actions).Terminal()
    ensures var f := Run(INITIAL, actions + [a]).feed;
      match VerdictOf(actions, a)
      case None => f.settlement.None?
      case Some(v) => SettledOn(f, v, StreamSeen(actions + [a], false), StreamSeen(actions + [a], true))
  {
    RunOneMore(INITIAL, actions, a);
    RunKeepsInv(INITIAL, actions);
    RunIsTold(actions);
    if Launch(actions).None? {
      UnattachedSettles(Run(INITIAL, actions), actions, a);
      assert (actions + [a])[..|actions|] == actions;
    } else {
      ChildSettles(Run(INITIAL, actions), actions, a);
    }
  }

  /** A run goes on exactly as long as no action has had a verdict. */
  lemma {:induction false} RunsOnExactlyWhen(actions: seq<Action>)
    ensures !Run(INITIAL, actions).Terminal() <==> NoVerdict(actions)
    decreases |actions|
  {
    if actions != [] {
      var init, a := actions[..|actions| - 1], actions[|actions| - 1];
      assert actions == init + [a];
      RunsOnExactlyWhen(init);
      NoVerdictOneMore(init, a);
      RunOneMore(INITIAL, init, a);
      RunKeepsInv(INITIAL, init);
      StepKeepsOutcome(Run(INITIAL, init), a);
      if NoVerdict(init) { StepSettles(init, a); }
    }
  }

  /** The first action of the run that has a verdict. */
  ghost predicate DecidesAt(actions: seq<Action>, k: nat)
    requires k < |actions|
  {
    NoVerdict(actions[..k]) && VerdictOf(actions[..k], actions[k]).Some?
  }

  lemma {:induction false} RunInTwo(s: Session, first: seq<Action>, second: seq<Action>)
    ensures Run(s, first + second) == Run(Run(s, first), second)
    decreases |first|
  {
    if first == [] {
      assert first + second == second;
    } else {
      assert (first + second)[1..] == first[1..] + second;
      RunInTwo(Step(s, first[0]), first[1..], second);
    }
  }

  lemma SettledForGood(first: seq<Action>, rest: seq<Action>)
    requires Run(INITIAL, first).Terminal()
    ensures Run(INITIAL, first + rest).feed.settlement == Run(INITIAL, first).feed.settlement
  {
    RunKeepsInv(INITIAL, first);
    OutcomeIsFinal(Run(INITIAL, first), rest);
    RunInTwo(INITIAL, first, rest);
  }

  lemma VerdictSettles(actions: seq<Action>, k: nat)
    requires k < |actions| && DecidesAt(actions, k)
    ensures SettledOn(Run(INITIAL, actions[..k + 1]).feed, VerdictOf(actions[..k], actions[k]).value,
                      StreamSeen(actions[..k + 1], false), StreamSeen(actions[..k + 1], true))
  {
    RunsOnExactlyWhen(actions[..k]);
    StepSettles(actions[..k], actions[k]);
    assert actions[..k + 1] == actions[..k] + [actions[k]];
  }

  /** The outcome is this verdict, with these streams. */
  ghost predicate OutcomeIs(f: Feed, v: Verdict, out: seq<Byte>, err: seq<Byte>) {
    && f.settlement.Some? && f.settlement.value.value == Snapshot(out, err, v.facts)
    && f.settlement.value.success == v.success && f.settlement.value.message == v.message
  }

  lemma OutcomeStays(first: seq<Action>, rest: seq<Action>, v: Verdict, out: seq<Byte>, err: seq<Byte>)
    requires SettledOn(Run(INITIAL, first).feed, v, out, err)
    ensures OutcomeIs(Run(INITIAL, first + rest).feed, v, out, err)
  {
    SettledForGood(first, rest);
  }

  lemma InTwo(actions: seq<Action>, k: nat)
    requires k < |actions|
    ensures actions[..k + 1] + actions[k + 1..] == actions
  {
  }

  /** Whatever follows, the first verdict is the outcome, with everything each stream had
      produced by then. */
  lemma OutcomeIsVerdict(actions: seq<Action>, k: nat)
    requires k < |actions| && DecidesAt(actions, k)
    ensures OutcomeIs(Run(INITIAL, actions).feed, VerdictOf(actions[..k], actions[k]).value,
                      StreamSeen(actions[..k + 1], false), StreamSeen(actions[..k + 1], true))
  {
    var first, rest := actions[..k + 1], actions[k + 1..];
    var v := VerdictOf(actions[..k], actions[k]).value;
    VerdictSettles(actions, k);
    InTwo(actions, k);
    OutcomeStays(first, rest, v, StreamSeen(first, false), StreamSeen(first, true));
  }

  /** Everything that is queued, consumed. */
  ghost function Delivered(s: Session): seq<Event> {
    Run(s, Pulls(|s.feed.queue.items|)).feed.queue.delivered
  }

  /** Consumers see the verdict: the last frame tells its exit facts, the error frame its
      message, and the files were released as its success. */
  lemma VerdictIsPublished(actions: seq<Action>, k: nat)
    requires k < |actions| && DecidesAt(actions, k) && Run(INITIAL, actions).Published()
    ensures var s := Run(INITIAL, actions); var v := VerdictOf(actions[..k], actions[k]).value;
      && Delivered(s) != [] && Delivered(s)[|Delivered(s)| - 1] == Event.Exit(v.facts)
      && s.ending.released.Some? && s.ending.released.value.success == v.success
      && (s.feed.closing.value.report.Some? ==> s.feed.closing.value.report.value.fault == v.message)
      && (s.feed.closing.value.report.None? ==> v.message.None? || v.message == Some(Told("")))
  {
    OutcomeIsVerdict(actions, k);
    RunKeepsInv(INITIAL, actions);
    EveryFrameIsDelivered(actions);
  }

  // ---------- native exits

  /** The exit that an action reports: its own, or the one that armed the drain timer. */
  function ExitOf(actions: seq<Action>, a: Action): Option<ExitFacts> {
    match a
    case Attach(_, replay, _, _) => if Launch(actions).None? then replay else None
    case NativeClose(_, facts) => if Launch(actions).Some? then Some(facts) else None
    case DrainFires(_) => ExitSeen(actions)
    case _ => None
  }

  /** A start frame that overflows the queue, or a child that never ran, fails the run before
      its exit is told. */
  predicate Unheard(actions: seq<Action>, a: Action) {
    (!Spawned(actions) && Full(actions)) || (a.NativeClose? && a.facts == NO_EXIT && ErrorSeen(actions).Some?)
  }

  lemma {:induction false} ExitFollowsLaunch(actions: seq<Action>)
    ensures Launch(actions).None? ==> ExitSeen(actions).None? && FramesSeen(actions) == []
    decreases |actions|
  {
    if actions != [] { ExitFollowsLaunch(actions[..|actions| - 1]); }
  }

  lemma ExitDecides(actions: seq<Action>, a: Action)
    requires ExitOf(actions, a).Some? && !Unheard(actions, a)
    ensures VerdictOf(actions, a) == Ending(ExitOf(actions, a).value)
  {
    ExitFollowsLaunch(actions);
  }

  /** The child of an exit that was reported is known to have ended, and how. */
  lemma ExitIsNoted(s: Session, actions: seq<Action>, a: Action)
    requires Follows(s, actions) && ExitOf(actions, a).Some?
    ensures var c := Step(s, a).child;
      c.launched && c.attached && c.facts == ExitOf(actions, a).value && (a.DrainFires? || c.closed)
  {
    ExitFollowsLaunch(actions);
  }

  /** An exit that ends a run is told as it was: its facts are in the result and in the last
      frame, the run is a success exactly for code zero, and no fault is reported. */
  lemma ExitIsPublished(actions: seq<Action>, k: nat)
    requires k < |actions| && NoVerdict(actions[..k]) && Run(INITIAL, actions).Published()
    requires ExitOf(actions[..k], actions[k]).Some? && !Unheard(actions[..k], actions[k])
    ensures var s := Run(INITIAL, actions); var facts := ExitOf(actions[..k], actions[k]).value;
      && s.Terminal() && s.feed.settlement.value.value.facts == facts
      && (s.feed.settlement.value.success <==> facts.code == Some(0)) && s.feed.settlement.value.message == None
      && Delivered(s) != [] && Delivered(s)[|Delivered(s)| - 1] == Event.Exit(facts)
      && s.ending.released.Some? && (s.ending.released.value.success <==> facts.code == Some(0))
      && (s.feed.closing.value.report.Some? ==> s.feed.closing.value.report.value.fault == None)
  {
    ExitDecides(actions[..k], actions[k]);
    OutcomeIsVerdict(actions, k);
    VerdictIsPublished(actions, k);
  }

  // ---------- after the outcome

  /** What is left behind: a tree that may be alive, or else a run home. */
  function LeftBy(tree: Option<string>, home: Option<string>): Option<Leftover> {
    if tree.Some? then Some(TreeAlive(tree.value)) else if home.Some? then Some(HomeKept(home.value)) else None
  }

  /** Nothing that happens to a settled session touches what consumers see but their own pulls,
      the publication, and a late spawn, which only notes that there was a start. */
  lemma SettledFeedIsQuiet(s: Session, a: Action)
    requires s.Terminal() && !a.Consume? && !a.Publish?
    ensures Step(s, a).feed == if a.Spawn? && s.child.attached then s.feed.(started := true) else s.feed
  {
    match a
    case LaunchFails(_) =>
    case Attach(_, _, _, _) =>
    case Cancel =>
    case _ => if s.child.attached { SettledChildIsQuiet(s, a); }
  }

  lemma SettledChildIsQuiet(s: Session, a: Action)
    requires s.Terminal()
    ensures FeedAfterChild(s, a) == if a.Spawn? then s.feed.(started := true) else s.feed
  {
  }

  /** A settled session goes on: the end of termination is noted, the files are released once
      the tree is over, as the success that was settled and rolled back when nothing started. */
  lemma CleanupGoesOn(s: Session, failure: Option<string>)
    requires Inv(s) && s.Terminal()
    ensures s.ending.tree == Terminating ==>
      Step(s, TreeEnds(failure)).ending.tree == Terminated(if s.child.launched then failure else None)
    ensures s.ending.tree.Terminated? && s.ending.released.None? ==>
      Step(s, FilesReleased).ending.released == Some(Release(s.feed.settlement.value.success, !s.feed.started))
  {
  }

  /** Then it is published: a report of the fault and of what is left, if there is anything to
      say, and the exit; the queue is closed, and a start that never came is rejected. */
  lemma PublishTells(s: Session, home: Option<string>)
    requires Inv(s) && s.Terminal() && s.ending.tree.Terminated? && s.ending.released.Some? && !s.Published()
    ensures var t := Step(s, Publish(home)); var o := s.feed.settlement.value;
      var report := Report(o.message, LeftBy(s.ending.tree.failure, home));
      && t.Published() && t.feed.queue.closed
      && t.feed.queue.accepted == s.feed.queue.accepted
         + (if ReportText(report) == "" then [] else [Error(report)]) + [Exit(o.value.facts)]
      && t.ending.start == if s.feed.started then s.ending.start else StartRejected
  {
    var o := s.feed.settlement.value;
    var c := Closing(ReportOf(o, s.ending.tree, home), o.value.facts);
    ReportTells(o, s.ending.tree, home);
    FinishedQueue(s.feed, c);
    PublishStep(s, home);
    FramesOfClosing(s.feed.queue.accepted, c);
  }

  lemma ReportTells(o: Settlement, tree: Tree, home: Option<string>)
    requires tree.Terminated?
    ensures var report := Report(o.message, LeftBy(tree.failure, home));
      ReportOf(o, tree, home) == if ReportText(report) == "" then None else Some(report)
  {
    SilentMeansNoText(Report(o.message, LeftBy(tree.failure, home)));
  }

  lemma FramesOfClosing(events: seq<Event>, c: Closing)
    ensures events + ClosingFrames(c) ==
      events + (if c.report.Some? then [Error(c.report.value)] else []) + [Exit(c.facts)]
  {
    assert events + ClosingFrames(c) ==
      events + (if c.report.Some? then [Error(c.report.value)] else []) + [Exit(c.facts)];
  }

  /** A cancel is taken once there is a child, and returns when all is published: with success
      exactly when the tree is confirmed gone. */
  lemma CancelAnswers(s: Session)
    requires Inv(s)
    ensures s.child.launched && s.ending.cancel == NotCancelled ==>
      Step(s, Cancel).ending.cancel == Cancelling && Step(s, Cancel).Terminal()
    ensures s.ending.cancel == Cancelling && s.Published() ==>
      s.ending.tree.Terminated?
      && Step(s, CancelReturns).ending.cancel == if s.ending.tree.failure.None? then Cancelled else CancelFailed
  {
  }

  /** Settling clears the timers; afterwards none is armed again. Only attaching arms them
      behind the outcome of a replayed or aborted child, where they find nothing to do. */
  lemma TimersStop(s: Session, a: Action)
    requires Inv(s)
    ensures !s.Terminal() && Step(s, a).Terminal() && !a.Attach? ==> Step(s, a).timers == Timers(false, false, false)
    ensures s.Terminal() ==>
      var t, u := s.timers, Step(s, a).timers;
      (u.timeout ==> t.timeout) && (u.startup ==> t.startup) && (u.drain ==> t.drain)
  {
    if s.Terminal() && !a.Publish? { StepMoves(s, a); }
  }
}
