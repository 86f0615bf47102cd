/** One spawned process as a state machine: what every native event, timer, caller action
    and completed cleanup does to the session, and what holds over every run of them. */
module SessionSpec {
  import opened Utf8
  import opened EventQueues
  import opened Wrappers

  const MAX_QUEUED_EVENTS := 64

  /** Why a run failed. */
  datatype Fault =
    | Overflow | CancelledRun | TimedOut | NotStarted | Diagnosed(code: string) | NotLaunched
    | InputUnavailable | Unrecorded(cause: string) | Told(text: string)

  function FaultText(f: Fault): string {
    match f
    case Overflow => "process event queue overflow"
    case CancelledRun => "execution cancelled"
    case TimedOut => "execution timed out"
    case NotStarted => "execution process did not start"
    case Diagnosed(code) => "execution process failed: " + code
    case NotLaunched => "execution process could not start"
    case InputUnavailable => "process input is not available"
    case Unrecorded(cause) => "launch provenance could not be recorded: " + cause
    case Told(text) => text
  }

  /** What could not be released after the run. */
  datatype Leftover = TreeAlive(why: string) | HomeKept(why: string)

  function LeftoverText(l: Leftover): string {
    match l
    case TreeAlive(why) => "process-tree cleanup failed: " + why
    case HomeKept(why) => "run-home cleanup failed: " + why
  }

  /** The content of an error frame; an empty message says nothing. */
  datatype Report = Report(fault: Option<Fault>, leftover: Option<Leftover>)
  {
    predicate Silent() { leftover.None? && (fault.None? || fault == Some(Told(""))) }
  }

  /** The nonempty ones of two messages, joined. */
  function JoinMessages(first: Option<string>, second: Option<string>): string {
    var a, b := if first.Some? then first.value else "", if second.Some? then second.value else "";
    if a == "" then b else if b == "" then a else a + "; " + b
  }

  function ReportText(r: Report): string {
    JoinMessages(if r.fault.Some? then Some(FaultText(r.fault.value)) else None,
                 if r.leftover.Some? then Some(LeftoverText(r.leftover.value)) else None)
  }

  function Nonempty(messages: seq<string>): seq<string> {
    if messages == [] then []
    else (if messages[0] == "" then [] else [messages[0]]) + Nonempty(messages[1..])
  }

  function Joined(messages: seq<string>): string {
    if messages == [] then ""
    else if |messages| == 1 then messages[0]
    else messages[0] + "; " + Joined(messages[1..])
  }

  /** A report tells its fault and what is left, those of them that have text, in this order. */
  lemma ReportIsJoined(r: Report)
    ensures ReportText(r) == Joined(Nonempty(
      (if r.fault.Some? then [FaultText(r.fault.value)] else [])
      + (if r.leftover.Some? then [LeftoverText(r.leftover.value)] else [])))
  {
    var a := if r.fault.Some? then [FaultText(r.fault.value)] else [];
    var b := if r.leftover.Some? then [LeftoverText(r.leftover.value)] else [];
    if r.fault.Some? && r.leftover.Some? {
      assert (a + b)[1..] == b && b[1..] == [];
      TwoJoined(a[0], b[0]);
    } else {
      assert a + b == a || a + b == b;
      assert a + b != [] ==> (a + b)[1..] == [];
    }
  }

  lemma TwoJoined(a: string, b: string)
    ensures Joined(Nonempty([a, b])) == JoinMessages(Some(a), Some(b))
  {
    assert [a, b][1..] == [b] && [b][1..] == [];
    assert Nonempty([b]) == if b == "" then [] else [b];
    assert Nonempty([a, b]) == (if a == "" then [] else [a]) + Nonempty([b]);
    if a != "" && b != "" {
      assert [a] + [b] == [a, b];
    }
  }

  /** A report is silent exactly when it has no text. */
  lemma SilentMeansNoText(r: Report)
    ensures r.Silent() <==> ReportText(r) == ""
  {
    if r.fault.Some? {
      assert r.fault.value.Told? || |FaultText(r.fault.value)| >= 19;
    }
    if r.leftover.Some? {
      assert |LeftoverText(r.leftover.value)| >= 20;
    }
  }

  /** How a process ended: its exit code, or the signal that ended it. */
  datatype ExitFacts = ExitFacts(code: Option<int>, signal: Option<string>)

  datatype Event =
    | Started(pid: Option<int>)
    | Stdout(data: seq<Byte>)
    | Stderr(data: seq<Byte>)
    | Error(report: Report)
    | Exit(facts: ExitFacts)

  /** Everything each stream had produced when the session settled, and how it ended. */
  datatype Snapshot = Snapshot(stdout: seq<Byte>, stderr: seq<Byte>, facts: ExitFacts)

  /** The one outcome a session settles on, before it is published. */
  datatype Settlement = Settlement(value: Snapshot, success: bool, message: Option<Fault>, afterStart: bool)

  /** The closing frames: an error report, if there is anything to report, and the exit. */
  datatype Closing = Closing(report: Option<Report>, facts: ExitFacts)

  /** Termination of the process tree; `failure` tells why it could not be confirmed. */
  datatype Tree = Untouched | Terminating | Terminated(failure: Option<string>)

  datatype StartOutcome = StartPending | StartResolved | StartRejected

  datatype Cancellation = NotCancelled | Cancelling | Cancelled | CancelFailed

  /** How the owned files were released: as a success, and whether they were rolled back. */
  datatype Release = Release(success: bool, rollback: bool)

  /** What consumers see: the event queue, the streams behind it, and how it ends. */
  datatype Feed = Feed(
    queue: Queue<Event>, stdout: seq<Byte>, stderr: seq<Byte>,
    started: bool, settlement: Option<Settlement>, closing: Option<Closing>)

  datatype Child = Child(
    launched: bool, attached: bool, closed: bool, inputClosed: bool,
    facts: ExitFacts, startError: Option<string>, provenanceFault: Option<string>)

  datatype Timers = Timers(timeout: bool, startup: bool, drain: bool)

  datatype Ending = Ending(tree: Tree, released: Option<Release>, start: StartOutcome, cancel: Cancellation)

  datatype Session = Session(feed: Feed, child: Child, timers: Timers, ending: Ending)
  {
    /** Set by the first settlement and never cleared. */
    predicate Terminal() { feed.settlement.Some? }

    /** The closing frames are out, the queue is closed and the result is resolved. */
    predicate Published() { feed.closing.Some? }
  }

  const NO_EXIT := ExitFacts(None, None)

  const INITIAL := Session(
    Feed(Empty(), [], [], false, None, None), Child(false, false, false, false, NO_EXIT, None, None),
    Timers(false, false, false), Ending(Untouched, None, StartPending, NotCancelled))

  datatype Action =
    // launching
    | LaunchFails(message: string)
    | Attach(pid: Option<int>, replay: Option<ExitFacts>, aborted: bool, timeout: bool)
    // native events of the child
    | Spawn(pid: Option<int>)
    | NativeError(message: string)
    | NativeClose(pid: Option<int>, facts: ExitFacts)
    | NativeExit(facts: ExitFacts)
    | StdoutData(chunk: seq<Byte>)
    | StderrData(chunk: seq<Byte>)
    | StreamFault(message: string)
    | ProvenanceFails(message: string)
    // timers
    | TimeoutFires
    | StartupFires(diagnosis: Option<string>)
    | DrainFires(pid: Option<int>)
    // the caller
    | Cancel
    | Write(sinkAvailable: bool)
    | CloseInput
    | Consume
    // completions of asynchronous cleanup
    | TreeEnds(failure: Option<string>)
    | ProvenanceResumes
    | FilesReleased
    | Publish(homeFailure: Option<string>)
    | CancelReturns

  // ---------- the feed: what settling and accepting do to it

  function SnapshotNow(f: Feed, facts: ExitFacts): Snapshot {
    Snapshot(f.stdout, f.stderr, facts)
  }

  /** The first settlement wins; every later one is ignored. */
  function Settled(f: Feed, value: Snapshot, success: bool, message: Option<Fault>): Feed {
    if f.settlement.Some? then f else f.(settlement := Some(Settlement(value, success, message, f.started)))
  }

  function Failed(f: Feed, facts: ExitFacts, fault: Fault): Feed {
    Settled(f, SnapshotNow(f, facts), false, Some(fault))
  }

  /** A frame is taken in while the session runs; one that a full queue refuses ends it. */
  function Accepted(f: Feed, facts: ExitFacts, event: Event): Feed {
    if f.settlement.Some? then f
    else if Refuses(f.queue, MAX_QUEUED_EVENTS) then Failed(f, facts, Overflow)
    else f.(queue := Enter(f.queue, event))
  }

  function Confirmed(f: Feed, facts: ExitFacts, pid: Option<int>): Feed {
    if f.started then f else Accepted(f.(started := true), facts, Event.Started(pid))
  }

  /** The process is over: publish the start it never got to confirm, then its real exit. */
  function Exited(f: Feed, facts: ExitFacts, pid: Option<int>): Feed {
    var g := Confirmed(f, facts, pid);
    Settled(g, SnapshotNow(g, facts), facts.code == Some(0), None)
  }

  /** Why the run failed, and what could not be cleaned up; the run home is released only
      after the tree is confirmed gone. */
  function ReportOf(o: Settlement, tree: Tree, homeFailure: Option<string>): Option<Report> {
    var leftover := match tree
      case Terminated(Some(why)) => Some(TreeAlive(why))
      case _ => if homeFailure.Some? then Some(HomeKept(homeFailure.value)) else None;
    var report := Report(o.message, leftover);
    if report.Silent() then None else Some(report)
  }

  function ClosingFrames(c: Closing): seq<Event> {
    if c.report.Some? then [Error(c.report.value), Exit(c.facts)] else [Exit(c.facts)]
  }

  function Finished(f: Feed, c: Closing): Feed {
    var q := if c.report.Some? then Forced(f.queue, Error(c.report.value)) else f.queue;
    f.(queue := Closed(Forced(q, Exit(c.facts))), closing := Some(c))
  }

  function LaunchFault(message: string): Fault {
    if message == "" then NotLaunched else Told(message)
  }

  function StartupFault(diagnosis: Option<string>): Fault {
    if diagnosis.Some? then Diagnosed(diagnosis.value) else NotStarted
  }

  // ---------- one action: what it does to each part of a session

  /** The launch has not been decided yet. */
  predicate Launching(s: Session) {
    !s.child.launched && !s.Terminal()
  }

  predicate ReadyToPublish(s: Session) {
    s.Terminal() && s.ending.tree.Terminated? && s.ending.released.Some? && !s.Published()
  }

  predicate ArmsDrain(s: Session) {
    s.child.attached && !s.Terminal() && !s.child.closed && !s.timers.drain
  }

  function FeedAfter(s: Session, a: Action): Feed {
    var f := s.feed;
    match a
    case LaunchFails(message) =>
      if !Launching(s) then f else Settled(f, Snapshot([], [], NO_EXIT), false, Some(LaunchFault(message)))
    case Attach(pid, replay, aborted, _) =>
      if !Launching(s) then f
      else
        var facts := if replay.Some? then replay.value else s.child.facts;
        var g := if replay.Some? then Exited(f, facts, pid) else f;
        if aborted && s.ending.cancel == NotCancelled then Failed(g, facts, CancelledRun) else g
    case Cancel =>
      if s.child.launched && s.ending.cancel == NotCancelled then Failed(f, s.child.facts, CancelledRun) else f
    case Consume => f.(queue := Pulled(f.queue))
    case Publish(homeFailure) =>
      if !ReadyToPublish(s) then f
      else
        var o := f.settlement.value;
        Finished(f, Closing(ReportOf(o, s.ending.tree, homeFailure), o.value.facts))
    case _ => if s.child.attached then FeedAfterChild(s, a) else f
  }

  /** The handlers that exist only once the child's listeners are attached. */
  function FeedAfterChild(s: Session, a: Action): Feed {
    var f, c := s.feed, s.child;
    match a
    case Spawn(pid) => Confirmed(f, c.facts, pid)
    case NativeError(message) =>
      if !f.started && !c.closed then Failed(f, c.facts, Told(message)) else f
    case NativeClose(pid, facts) =>
      if s.Terminal() then f
      else if c.startError.Some? && facts == NO_EXIT
        then Failed(Confirmed(f, facts, pid), facts, Told(c.startError.value))
      else Exited(f, facts, pid)
    case StdoutData(chunk) =>
      if s.Terminal() then f else Accepted(f.(stdout := f.stdout + chunk), c.facts, Stdout(chunk))
    case StderrData(chunk) =>
      if s.Terminal() then f else Accepted(f.(stderr := f.stderr + chunk), c.facts, Stderr(chunk))
    case StreamFault(message) => Failed(f, c.facts, Told(message))
    case ProvenanceResumes =>
      if c.provenanceFault.Some? && s.ending.tree.Terminated?
      then Failed(f, c.facts, Unrecorded(c.provenanceFault.value)) else f
    case TimeoutFires => if s.timers.timeout then Failed(f, c.facts, TimedOut) else f
    case StartupFires(diagnosis) =>
      if !s.timers.startup then f
      else Failed(f, c.facts, StartupFault(diagnosis))
    case DrainFires(pid) =>
      if s.timers.drain && !s.Terminal() && !c.closed then Exited(f, c.facts, pid) else f
    case Write(sinkAvailable) =>
      if c.inputClosed || sinkAvailable then f else Failed(f, c.facts, InputUnavailable)
    case _ => f
  }

  function ChildAfter(s: Session, a: Action): Child {
    var c := s.child;
    match a
    case Attach(_, replay, _, _) =>
      if !Launching(s) then c
      else if replay.None? then c.(launched := true, attached := true)
      else c.(launched := true, attached := true, closed := true, facts := replay.value)
    case NativeError(message) => if c.attached then c.(startError := Some(message)) else c
    case NativeClose(_, facts) => if c.attached && !s.Terminal() then c.(closed := true, facts := facts) else c
    case NativeExit(facts) => if ArmsDrain(s) then c.(facts := facts) else c
    case ProvenanceFails(message) =>
      if c.attached && c.provenanceFault.None? then c.(provenanceFault := Some(message)) else c
    case CloseInput => if c.attached && !s.Terminal() then c.(inputClosed := true) else c
    case _ => c
  }

  /** Settling clears every timer, and a confirmed start clears the startup timer; attaching
      arms its timers after everything else. */
  function TimersAfter(s: Session, a: Action): Timers {
    var g := FeedAfter(s, a);
    var t := match a
      case TimeoutFires => s.timers.(timeout := false)
      case StartupFires(_) => s.timers.(startup := false)
      case DrainFires(_) => s.timers.(drain := false)
      case NativeExit(_) => s.timers.(drain := s.timers.drain || ArmsDrain(s))
      case _ => s.timers;
    if a.Attach? && Launching(s) then Timers(a.timeout, true, false)
    else if g.settlement.Some? && !s.Terminal() then Timers(false, false, false)
    else if g.started && !s.feed.started then t.(startup := false)
    else t
  }

  /** Termination begins once, with the settlement or with a failed provenance record. */
  function TreeAfter(s: Session, a: Action, g: Feed): Tree {
    var tree := s.ending.tree;
    if a.TreeEnds? && tree == Terminating then Terminated(if s.child.launched then a.failure else None)
    else if tree == Untouched
      && ((g.settlement.Some? && !s.Terminal())
        || (a.ProvenanceFails? && s.child.attached && s.child.provenanceFault.None?)) then Terminating
    else tree
  }

  function StartAfter(s: Session, g: Feed): StartOutcome {
    var start := s.ending.start;
    if start != StartPending then start
    else if g.started && !s.feed.started then StartResolved
    else if g.closing.Some? && !s.Published() && !s.feed.started then StartRejected
    else start
  }

  function CancelAfter(s: Session, a: Action): Cancellation {
    var e := s.ending;
    if ((a.Cancel? && s.child.launched) || (a.Attach? && a.aborted && Launching(s))) && e.cancel == NotCancelled
      then Cancelling
    else if a.CancelReturns? && e.cancel == Cancelling && s.Published() && e.tree.Terminated?
      then if e.tree.failure.None? then Cancelled else CancelFailed
    else e.cancel
  }

  function ReleaseAfter(s: Session, a: Action): Option<Release> {
    var e := s.ending;
    if a.FilesReleased? && s.Terminal() && e.tree.Terminated? && e.released.None?
      then Some(Release(s.feed.settlement.value.success, !s.feed.started)) else e.released
  }

  function Step(s: Session, a: Action): Session {
    var g := FeedAfter(s, a);
    Session(g, ChildAfter(s, a), TimersAfter(s, a),
      Ending(TreeAfter(s, a, g), ReleaseAfter(s, a), StartAfter(s, g), CancelAfter(s, a)))
  }

  // ---------- the actions that do several things at once, spelled out

  function PublishedAs(s: Session, homeFailure: Option<string>): Session
    requires s.Terminal()
  {
    var o := s.feed.settlement.value;
    s.(feed := Finished(s.feed, Closing(ReportOf(o, s.ending.tree, homeFailure), o.value.facts)),
       ending := s.ending.(start := if !s.feed.started && s.ending.start == StartPending
                                    then StartRejected else s.ending.start))
  }

  lemma PublishStep(s: Session, homeFailure: Option<string>)
    requires ReadyToPublish(s)
    ensures Step(s, Publish(homeFailure)) == PublishedAs(s, homeFailure)
  {
  }

  /** The child is over, and the session with it: confirm, settle, clear the timers, begin
      termination. */
  function OverWith(s: Session, child: Child, pid: Option<int>): Session {
    var e := if s.feed.started || s.ending.start != StartPending then s.ending
             else s.ending.(start := StartResolved);
    Session(Exited(s.feed, child.facts, pid), child, Timers(false, false, false), Begun(e))
  }

  function Begun(e: Ending): Ending {
    if e.tree == Untouched then e.(tree := Terminating) else e
  }

  lemma DrainStep(s: Session, pid: Option<int>)
    ensures Step(s, DrainFires(pid)) ==
      if !s.timers.drain then s
      else if !s.child.attached || s.Terminal() || s.child.closed then s.(timers := s.timers.(drain := false))
      else OverWith(s, s.child, pid)
  {
  }

  /** A child that closed without ever running: its start error is the outcome. */
  function NeverRan(s: Session, child: Child, pid: Option<int>, fault: Fault): Session {
    OverWith(s, child, pid).(feed := Failed(Confirmed(s.feed, child.facts, pid), child.facts, fault))
  }

  lemma CloseStep(s: Session, pid: Option<int>, facts: ExitFacts)
    requires s.child.attached && !s.Terminal()
    ensures Step(s, NativeClose(pid, facts)) ==
      var c := s.child.(closed := true, facts := facts);
      if c.startError.Some? && facts == NO_EXIT then NeverRan(s, c, pid, Told(c.startError.value))
      else OverWith(s, c, pid)
  {
  }

  function CancelledAs(s: Session): Session {
    if s.Terminal() then s.(ending := s.ending.(cancel := Cancelling))
    else Session(Failed(s.feed, s.child.facts, CancelledRun), s.child, Timers(false, false, false),
                 Begun(s.ending.(cancel := Cancelling)))
  }

  function AttachedChild(s: Session, replay: Option<ExitFacts>): Child {
    if replay.None? then s.child.(launched := true, attached := true)
    else s.child.(launched := true, attached := true, closed := true, facts := replay.value)
  }

  lemma AttachStep(s: Session, pid: Option<int>, replay: Option<ExitFacts>, aborted: bool, timeout: bool)
    requires Launching(s)
    ensures Step(s, Attach(pid, replay, aborted, timeout)) ==
      var c := AttachedChild(s, replay);
      var t := if replay.Some? then OverWith(s, c, pid) else s.(child := c);
      var u := if aborted && s.ending.cancel == NotCancelled then CancelledAs(t) else t;
      u.(timers := Timers(timeout, true, false))
  {
  }

  function Run(s: Session, actions: seq<Action>): Session
    decreases |actions|
  {
    if actions == [] then s else Run(Step(s, actions[0]), actions[1..])
  }

  // ---------- what holds in every reachable state: the feed

  function StartFrames(events: seq<Event>): nat {
    if events == [] then 0 else StartFrames(events[..|events| - 1]) + (if events[|events| - 1].Started? then 1 else 0)
  }

  function StdoutOf(events: seq<Event>): seq<Byte> {
    if events == [] then []
    else
      var last := events[|events| - 1];
      StdoutOf(events[..|events| - 1]) + (if last.Stdout? then last.data else [])
  }

  /** (started | stdout | stderr)* */
  ghost predicate Ordinary(events: seq<Event>) {
    forall e :: e in events ==> !e.Error? && !e.Exit?
  }

  /** (started | stdout | stderr)* error? exit */
  ghost predicate Complete(events: seq<Event>, c: Closing) {
    exists n :: 0 <= n <= |events| && Ordinary(events[..n]) && events[n..] == ClosingFrames(c)
  }

  ghost predicate QueueInv(f: Feed) {
    && Fifo(f.queue)
    && (f.queue.closed <==> f.closing.Some?)
    && |f.queue.items| <= (if f.closing.None? then MAX_QUEUED_EVENTS - RESERVED_TERMINAL_EVENTS else MAX_QUEUED_EVENTS)
  }

  ghost predicate TraceInv(f: Feed) {
    && (f.closing.None? ==> Ordinary(f.queue.accepted))
    && (f.closing.Some? ==> f.settlement.Some? && Complete(f.queue.accepted, f.closing.value))
  }

  /** At most one start frame; and the retained stream is the data of the frames, in order,
      unless it was the overflow of the queue that ended the run. */
  ghost predicate StreamInv(f: Feed) {
    && StartFrames(f.queue.accepted) <= (if f.started then 1 else 0)
    && (|| (f.settlement.Some? && f.settlement.value.message == Some(Overflow))
        || (&& StdoutOf(f.queue.accepted) == f.stdout
            && (f.settlement.None? && f.started ==> StartFrames(f.queue.accepted) == 1)))
  }

  ghost predicate FeedInv(f: Feed) {
    QueueInv(f) && TraceInv(f) && StreamInv(f)
  }

  lemma OneMore(events: seq<Event>, e: Event)
    ensures StartFrames(events + [e]) == StartFrames(events) + (if e.Started? then 1 else 0)
    ensures StdoutOf(events + [e]) == StdoutOf(events) + (if e.Stdout? then e.data else [])
    ensures Ordinary(events) && !e.Error? && !e.Exit? ==> Ordinary(events + [e])
  {
    assert (events + [e])[..|events|] == events;
  }

  lemma SettledKeepsFeed(f: Feed, value: Snapshot, success: bool, message: Option<Fault>)
    requires FeedInv(f)
    ensures FeedInv(Settled(f, value, success, message))
  {
  }

  /** An ordinary frame enters the queue, or overflows it, together with what it stands for. */
  lemma AcceptedKeepsFeed(f: Feed, facts: ExitFacts, e: Event)
    requires FeedInv(f) && f.settlement.None? && !e.Error? && !e.Exit?
    requires e.Started? ==> !f.started
    ensures FeedInv(Accepted(f.(
      started := f.started || e.Started?,
      stdout := f.stdout + (if e.Stdout? then e.data else []),
      stderr := f.stderr + (if e.Stderr? then e.data else [])), facts, e))
  {
    EnterKeepsFifo(f.queue, e);
    OneMore(f.queue.accepted, e);
  }

  lemma ConfirmedKeepsFeed(f: Feed, facts: ExitFacts, pid: Option<int>)
    requires FeedInv(f)
    ensures FeedInv(Confirmed(f, facts, pid))
  {
    if !f.started && f.settlement.None? {
      AcceptedKeepsFeed(f, facts, Event.Started(pid));
      assert f.stdout + [] == f.stdout && f.stderr + [] == f.stderr;
    }
  }

  lemma DataKeepsFeed(f: Feed, facts: ExitFacts, e: Event)
    requires FeedInv(f) && f.settlement.None?
    ensures e.Stdout? ==> FeedInv(Accepted(f.(stdout := f.stdout + e.data), facts, e))
    ensures e.Stderr? ==> FeedInv(Accepted(f.(stderr := f.stderr + e.data), facts, e))
  {
    if e.Stdout? || e.Stderr? {
      AcceptedKeepsFeed(f, facts, e);
      assert f.stdout + [] == f.stdout && f.stderr + [] == f.stderr;
    }
  }

  lemma ForcedKeepsFifo(q: Queue<Event>, e: Event)
    requires Fifo(q) && !q.closed
    ensures Fifo(Forced(q, e)) && !Forced(q, e).closed && Forced(q, e).accepted == q.accepted + [e]
    ensures |Forced(q, e).items| <= |q.items| + 1
  {
    EnterKeepsFifo(q, e);
  }

  /** Publication bypasses the bound, never the reservation: both frames always fit. */
  lemma FinishedQueue(f: Feed, c: Closing)
    requires QueueInv(f) && f.closing.None?
    ensures QueueInv(Finished(f, c))
    ensures Finished(f, c).queue.accepted == f.queue.accepted + ClosingFrames(c)
  {
    if c.report.Some? {
      var error := Error(c.report.value);
      ForcedKeepsFifo(f.queue, error);
      ForcedKeepsFifo(Forced(f.queue, error), Exit(c.facts));
      assert (f.queue.accepted + [error]) + [Exit(c.facts)] == f.queue.accepted + ClosingFrames(c);
    } else {
      ForcedKeepsFifo(f.queue, Exit(c.facts));
    }
  }

  lemma ClosingFramesAddNothing(events: seq<Event>, c: Closing)
    ensures StartFrames(events + ClosingFrames(c)) == StartFrames(events)
    ensures StdoutOf(events + ClosingFrames(c)) == StdoutOf(events)
  {
    if c.report.Some? {
      OneMore(events, Error(c.report.value));
      OneMore(events + [Error(c.report.value)], Exit(c.facts));
      assert events + ClosingFrames(c) == (events + [Error(c.report.value)]) + [Exit(c.facts)];
    } else {
      OneMore(events, Exit(c.facts));
    }
  }

  lemma CompleteWith(events: seq<Event>, c: Closing)
    requires Ordinary(events)
    ensures Complete(events + ClosingFrames(c), c)
  {
    var all := events + ClosingFrames(c);
    assert all[..|events|] == events && all[|events|..] == ClosingFrames(c);
  }

  lemma FinishedKeepsFeed(f: Feed, c: Closing)
    requires FeedInv(f) && f.closing.None? && f.settlement.Some?
    ensures FeedInv(Finished(f, c))
  {
    FinishedQueue(f, c);
    CompleteWith(f.queue.accepted, c);
    ClosingFramesAddNothing(f.queue.accepted, c);
  }

  lemma FailedKeepsFeed(f: Feed, facts: ExitFacts, fault: Fault)
    requires FeedInv(f)
    ensures FeedInv(Failed(f, facts, fault))
  {
    SettledKeepsFeed(f, SnapshotNow(f, facts), false, Some(fault));
  }

  lemma ExitedKeepsFeed(f: Feed, facts: ExitFacts, pid: Option<int>)
    requires FeedInv(f)
    ensures FeedInv(Exited(f, facts, pid))
  {
    ConfirmedKeepsFeed(f, facts, pid);
    var g := Confirmed(f, facts, pid);
    SettledKeepsFeed(g, SnapshotNow(g, facts), facts.code == Some(0), None);
  }

  lemma AttachKeepsFeed(s: Session, a: Action)
    requires FeedInv(s.feed) && a.Attach?
    ensures FeedInv(FeedAfter(s, a))
  {
    if a.replay.Some? {
      ExitedKeepsFeed(s.feed, a.replay.value, a.pid);
      FailedKeepsFeed(Exited(s.feed, a.replay.value, a.pid), a.replay.value, CancelledRun);
    } else {
      FailedKeepsFeed(s.feed, s.child.facts, CancelledRun);
    }
  }

  lemma NeverRanKeepsFeed(f: Feed, facts: ExitFacts, pid: Option<int>, fault: Fault)
    requires FeedInv(f)
    ensures FeedInv(Failed(Confirmed(f, facts, pid), facts, fault))
  {
    ConfirmedKeepsFeed(f, facts, pid);
    FailedKeepsFeed(Confirmed(f, facts, pid), facts, fault);
  }

  lemma CloseKeepsFeed(s: Session, a: Action)
    requires FeedInv(s.feed) && a.NativeClose?
    ensures FeedInv(FeedAfterChild(s, a))
  {
    if s.child.startError.Some? && a.facts == NO_EXIT {
      NeverRanKeepsFeed(s.feed, a.facts, a.pid, Told(s.child.startError.value));
    } else {
      ExitedKeepsFeed(s.feed, a.facts, a.pid);
    }
  }

  lemma ChildKeepsFeed(s: Session, a: Action)
    requires FeedInv(s.feed)
    ensures FeedInv(FeedAfterChild(s, a))
  {
    match a
    case Spawn(pid) => ConfirmedKeepsFeed(s.feed, s.child.facts, pid);
    case NativeError(message) => FailedKeepsFeed(s.feed, s.child.facts, Told(message));
    case NativeClose(_, _) => CloseKeepsFeed(s, a);
    case StdoutData(chunk) => if !s.Terminal() { DataKeepsFeed(s.feed, s.child.facts, Stdout(chunk)); }
    case StderrData(chunk) => if !s.Terminal() { DataKeepsFeed(s.feed, s.child.facts, Stderr(chunk)); }
    case StreamFault(message) => FailedKeepsFeed(s.feed, s.child.facts, Told(message));
    case ProvenanceResumes =>
      if s.child.provenanceFault.Some? {
        FailedKeepsFeed(s.feed, s.child.facts, Unrecorded(s.child.provenanceFault.value));
      }
    case TimeoutFires => FailedKeepsFeed(s.feed, s.child.facts, TimedOut);
    case StartupFires(diagnosis) =>
      FailedKeepsFeed(s.feed, s.child.facts, StartupFault(diagnosis));
    case DrainFires(pid) => ExitedKeepsFeed(s.feed, s.child.facts, pid);
    case Write(_) => FailedKeepsFeed(s.feed, s.child.facts, InputUnavailable);
    case _ =>
  }

  lemma StepKeepsFeed(s: Session, a: Action)
    requires FeedInv(s.feed)
    ensures FeedInv(FeedAfter(s, a))
  {
    match a
    case LaunchFails(message) =>
      SettledKeepsFeed(s.feed, Snapshot([], [], NO_EXIT), false, Some(LaunchFault(message)));
    case Attach(_, _, _, _) => AttachKeepsFeed(s, a);
    case Cancel => FailedKeepsFeed(s.feed, s.child.facts, CancelledRun);
    case Consume => PullKeepsFifo(s.feed.queue);
    case Publish(homeFailure) =>
      if ReadyToPublish(s) {
        var o := s.feed.settlement.value;
        FinishedKeepsFeed(s.feed, Closing(ReportOf(o, s.ending.tree, homeFailure), o.value.facts));
      }
    case _ => if s.child.attached { ChildKeepsFeed(s, a); }
  }

  // ---------- what holds in every reachable state: the outcome

  ghost predicate SettlementInv(f: Feed, launched: bool) {
    f.settlement.Some? ==>
      var o := f.settlement.value;
      && (o.success ==> o.value.facts.code == Some(0) && o.message.None?)
      && (o.message.None? ==> o.afterStart)
      && (o.afterStart ==> f.started)
      && (launched ==> o.value == SnapshotNow(f, o.value.facts))
  }

  /** The closing frames tell the settled outcome, and a clean exit means that the tree is
      confirmed gone. */
  ghost predicate ClosingInv(o: Settlement, tree: Tree, c: Closing) {
    && c.facts == o.value.facts
    && (c.report.None? ==> tree == Terminated(None) && (o.message.None? || o.message == Some(Told(""))))
    && (c.report.Some? ==> !c.report.value.Silent() && c.report.value.fault == o.message)
    && (c.report.Some? && tree.Terminated? && tree.failure.Some? ==>
        c.report.value.leftover == Some(TreeAlive(tree.failure.value)))
  }

  /** Cleanup happens in order: settle, terminate the tree, release the files, publish. */
  ghost predicate EndingInv(f: Feed, e: Ending) {
    && (f.settlement.Some? ==> e.tree != Untouched)
    && (e.released.Some? ==>
        f.settlement.Some? && e.tree.Terminated? && e.released.value.success == f.settlement.value.success)
    && (f.closing.Some? ==>
        e.released.Some? && f.settlement.Some? && ClosingInv(f.settlement.value, e.tree, f.closing.value))
  }

  /** The promises handed to the caller: the session itself, and each cancellation. */
  ghost predicate PromiseInv(f: Feed, e: Ending) {
    && (e.start == StartResolved ==> f.started)
    && (f.started ==> e.start != StartPending)
    && (e.start == StartRejected ==> f.closing.Some?)
    && (f.closing.Some? ==> e.start != StartPending)
    && (e.cancel != NotCancelled ==> f.settlement.Some?)
    && (e.cancel == Cancelled ==> f.closing.Some? && e.tree == Terminated(None))
    && (e.cancel == CancelFailed ==> f.closing.Some? && e.tree.Terminated? && e.tree.failure.Some?)
  }

  ghost predicate Inv(s: Session) {
    && FeedInv(s.feed)
    && (s.child.attached || s.feed.started ==> s.child.launched)
    && (s.timers.startup ==> !s.feed.started || s.Terminal())
    && SettlementInv(s.feed, s.child.launched)
    && EndingInv(s.feed, s.ending)
    && PromiseInv(s.feed, s.ending)
  }

  // ---------- every action keeps the outcome

  /** What an action other than publishing may do to the feed: start it, add to it while it
      runs, and settle it once. */
  ghost predicate Moves(f: Feed, g: Feed, launched: bool) {
    && (f.started ==> g.started)
    && g.closing == f.closing
    && (if f.settlement.Some?
        then g.settlement == f.settlement && g.stdout == f.stdout && g.stderr == f.stderr
        else SettlementInv(g, launched))
  }

  lemma ChildMoves(s: Session, a: Action)
    requires s.child.attached && s.child.launched && !a.Publish?
    ensures Moves(s.feed, FeedAfterChild(s, a), true)
  {
  }

  lemma AttachMoves(s: Session, a: Action)
    requires a.Attach? && Launching(s)
    ensures Moves(s.feed, FeedAfter(s, a), true)
  {
  }

  lemma StepMoves(s: Session, a: Action)
    requires (s.child.attached ==> s.child.launched) && !a.Publish?
    ensures Moves(s.feed, FeedAfter(s, a), ChildAfter(s, a).launched)
  {
    match a
    case Attach(_, _, _, _) => if Launching(s) { AttachMoves(s, a); }
    case LaunchFails(_) =>
    case Cancel =>
    case Consume =>
    case _ => if s.child.attached { ChildMoves(s, a); }
  }

  lemma MovedKeepsSettlement(f: Feed, g: Feed, before: bool, launched: bool)
    requires SettlementInv(f, before) && Moves(f, g, launched) && (f.settlement.Some? ==> launched == before)
    ensures SettlementInv(g, launched)
  {
  }

  lemma StepKeepsSettlement(s: Session, a: Action)
    requires Inv(s)
    ensures SettlementInv(FeedAfter(s, a), ChildAfter(s, a).launched)
  {
    if !a.Publish? {
      StepMoves(s, a);
      MovedKeepsSettlement(s.feed, FeedAfter(s, a), s.child.launched, ChildAfter(s, a).launched);
    }
  }

  lemma EndingKept(s: Session, a: Action, g: Feed)
    requires EndingInv(s.feed, s.ending) && !a.Publish? && Moves(s.feed, g, ChildAfter(s, a).launched)
    ensures EndingInv(g, Ending(TreeAfter(s, a, g), ReleaseAfter(s, a), StartAfter(s, g), CancelAfter(s, a)))
  {
  }

  lemma PromisesKept(s: Session, a: Action, g: Feed)
    requires PromiseInv(s.feed, s.ending) && !a.Publish? && Moves(s.feed, g, ChildAfter(s, a).launched)
    requires CancelAfter(s, a) != NotCancelled ==> g.settlement.Some?
    ensures PromiseInv(g, Ending(TreeAfter(s, a, g), ReleaseAfter(s, a), StartAfter(s, g), CancelAfter(s, a)))
  {
  }

  lemma PublishKeepsEnding(s: Session, homeFailure: Option<string>)
    requires EndingInv(s.feed, s.ending) && ReadyToPublish(s)
    ensures EndingInv(PublishedAs(s, homeFailure).feed, PublishedAs(s, homeFailure).ending)
  {
  }

  lemma StepKeepsEnding(s: Session, a: Action)
    requires EndingInv(s.feed, s.ending) && (s.child.attached ==> s.child.launched)
    ensures EndingInv(Step(s, a).feed, Step(s, a).ending)
  {
    if !a.Publish? {
      StepMoves(s, a);
      EndingKept(s, a, FeedAfter(s, a));
    } else if ReadyToPublish(s) {
      PublishStep(s, a.homeFailure);
      PublishKeepsEnding(s, a.homeFailure);
    }
  }

  lemma CancelSettles(s: Session, a: Action)
    requires PromiseInv(s.feed, s.ending) && (s.child.attached ==> s.child.launched)
    requires CancelAfter(s, a) != NotCancelled
    ensures FeedAfter(s, a).settlement.Some?
  {
    if s.Terminal() && !a.Publish? { StepMoves(s, a); }
  }

  lemma StepKeepsPromises(s: Session, a: Action)
    requires Inv(s)
    ensures PromiseInv(Step(s, a).feed, Step(s, a).ending)
  {
    if !a.Publish? {
      StepMoves(s, a);
      if CancelAfter(s, a) != NotCancelled { CancelSettles(s, a); }
      PromisesKept(s, a, FeedAfter(s, a));
    }
  }

  lemma StepKeepsStartup(s: Session, a: Action)
    requires Inv(s)
    ensures var t := Step(s, a);
      && (t.child.attached || t.feed.started ==> t.child.launched)
      && (t.timers.startup ==> !t.feed.started || t.Terminal())
  {
    if !a.Publish? { StepMoves(s, a); }
  }

  lemma StepKeepsInv(s: Session, a: Action)
    requires Inv(s)
    ensures Inv(Step(s, a))
  {
    StepKeepsFeed(s, a);
    StepKeepsSettlement(s, a);
    StepKeepsEnding(s, a);
    StepKeepsPromises(s, a);
    StepKeepsStartup(s, a);
  }

  /** Every run, whatever the order of its actions, keeps every clause of `Inv`. */
  lemma {:induction false} RunKeepsInv(s: Session, actions: seq<Action>)
    requires Inv(s)
    ensures Inv(Run(s, actions))
    decreases |actions|
  {
    if actions == [] {
    } else {
      StepKeepsInv(s, actions[0]);
      RunKeepsInv(Step(s, actions[0]), actions[1..]);
    }
  }
}
