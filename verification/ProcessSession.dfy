/** The session object behind one spawned process: its closure variables, and one method
    for every handler that updates them. Each method does to the object what `Step` does
    to the abstract session. */
module ProcessSessions {
  import opened Utf8
  import opened OutputTail
  import opened EventQueues
  import opened SessionSpec
  import opened Wrappers

  const MAX_RESULT_STREAM_BYTES: nat := 2 * 1024 * 1024

  /** What the caller receives: the decodable tail of each stream, and the exit facts. */
  datatype Result = Result(stdout: seq<Byte>, stderr: seq<Byte>, facts: ExitFacts)

  function Rendered(s: Snapshot): Result {
    Result(Decodable(LastBytes(s.stdout, MAX_RESULT_STREAM_BYTES)),
           Decodable(LastBytes(s.stderr, MAX_RESULT_STREAM_BYTES)), s.facts)
  }

  /** The outcome a session keeps while it cleans up. */
  datatype Outcome = Outcome(value: Result, success: bool, fault: Option<Fault>)

  ghost function Kept(settlement: Option<Settlement>): Option<Outcome> {
    if settlement.None? then None
    else Some(Outcome(Rendered(settlement.value.value), settlement.value.success, settlement.value.message))
  }

  class ProcessSession {
    const queue: EventQueue<Event>
    const stdoutTail: BufferTail
    const stderrTail: BufferTail
    var started: bool
    /** `launched` .. `provenanceFault`: what the child's own events have told. */
    var child: Child
    /** Which of the three timers are armed. */
    var timers: Timers
    /** Termination, file release, and the promises handed out. */
    var ending: Ending
    /** The settled outcome, kept until its cleanup is done; the session is terminal with it. */
    var outcome: Option<Outcome>
    var result: Option<Result>
    ghost var settlement: Option<Settlement>
    ghost var closing: Option<Closing>

    ghost function FeedNow(): Feed
      reads `settlement, `started, `closing, queue, stdoutTail, stderrTail
    {
      Feed(queue.State(), stdoutTail.stream, stderrTail.stream, started, settlement, closing)
    }

    ghost function State(): Session
      reads this, queue, stdoutTail, stderrTail
    {
      Session(FeedNow(), child, timers, ending)
    }

    ghost predicate Valid()
      reads `outcome, `settlement, `result, `closing, stdoutTail, stderrTail
    {
      && queue.limit == MAX_QUEUED_EVENTS
      && stdoutTail != stderrTail
      && Retains(stdoutTail) && Retains(stderrTail)
      && outcome == Kept(settlement)
      && (result.Some? <==> closing.Some?)
      && (result.Some? ==> outcome.Some? && result.value == outcome.value.value)
    }

    static ghost predicate Retains(tail: BufferTail)
      reads tail
    {
      tail.Valid() && tail.maxBytes == MAX_RESULT_STREAM_BYTES
    }

    constructor ()
      ensures Valid() && State() == INITIAL
      ensures fresh(queue) && fresh(stdoutTail) && fresh(stderrTail)
    {
      queue := new EventQueue(MAX_QUEUED_EVENTS);
      stdoutTail := new BufferTail(MAX_RESULT_STREAM_BYTES);
      stderrTail := new BufferTail(MAX_RESULT_STREAM_BYTES);
      started, child, timers, ending := false, INITIAL.child, INITIAL.timers, INITIAL.ending;
      outcome, result, settlement, closing := None, None, None, None;
    }

    method TerminateProcessTree()
      modifies `ending
      ensures ending == Begun(old(ending))
    {
      if ending.tree != Untouched {
        return;
      }
      ending := ending.(tree := Terminating);
    }

    /** A settlement clears the timers and begins termination; without one neither changes. */
    twostate predicate CleanupFollows()
      reads `settlement, `timers, `ending
    {
      if settlement.Some? && old(settlement).None?
      then timers == Timers(false, false, false) && ending == Begun(old(ending))
      else timers == old(timers) && ending == old(ending)
    }

    /** Settle once: the first outcome is kept and its cleanup begins. */
    method Settle(value: Result, success: bool, message: Option<Fault>, ghost snapshot: Snapshot)
      requires Valid() && value == Rendered(snapshot)
      modifies `outcome, `settlement, `timers, `ending
      ensures Valid() && CleanupFollows()
      ensures FeedNow() == Settled(old(FeedNow()), snapshot, success, message)
    {
      if outcome.Some? {
        return;
      }
      outcome := Some(Outcome(value, success, message));
      settlement := Some(Settlement(snapshot, success, message, started));
      timers := Timers(false, false, false);
      TerminateProcessTree();
    }

    method DecodeTails() returns (out: seq<Byte>, err: seq<Byte>)
      requires Valid()
      ensures out == Decodable(LastBytes(stdoutTail.stream, MAX_RESULT_STREAM_BYTES))
      ensures err == Decodable(LastBytes(stderrTail.stream, MAX_RESULT_STREAM_BYTES))
    {
      out := stdoutTail.DecodableTail();
      err := stderrTail.DecodableTail();
    }

    method Fail(message: Fault)
      requires Valid()
      modifies `outcome, `settlement, `timers, `ending
      ensures Valid() && CleanupFollows()
      ensures FeedNow() == Failed(old(FeedNow()), child.facts, message)
    {
      var out, err := DecodeTails();
      ghost var snapshot := Snapshot(stdoutTail.stream, stderrTail.stream, child.facts);
      Settle(Result(out, err, child.facts), false, Some(message), snapshot);
    }

    method FinishExit(facts: ExitFacts)
      requires Valid()
      modifies `outcome, `settlement, `timers, `ending
      ensures Valid() && CleanupFollows()
      ensures FeedNow() == Settled(old(FeedNow()), SnapshotNow(old(FeedNow()), facts), facts.code == Some(0), None)
    {
      var out, err := DecodeTails();
      ghost var snapshot := Snapshot(stdoutTail.stream, stderrTail.stream, facts);
      Settle(Result(out, err, facts), facts.code == Some(0), None, snapshot);
    }

    method Accept(event: Event)
      requires Valid()
      modifies `outcome, `settlement, `timers, `ending, queue
      ensures Valid() && CleanupFollows()
      ensures FeedNow() == Accepted(old(FeedNow()), child.facts, event)
    {
      if outcome.Some? {
        return;
      }
      var ok := queue.Push(event);
      if !ok {
        Fail(Overflow);
      }
    }

    method ConfirmStarted(pid: Option<int>)
      requires Valid()
      modifies `outcome, `settlement, `timers, `ending, queue, `started
      ensures Valid()
      ensures FeedNow() == Confirmed(old(FeedNow()), child.facts, pid)
      ensures old(started) ==> timers == old(timers) && ending == old(ending)
      ensures !old(started) ==>
        var settles := settlement.Some? && old(settlement).None?;
        && timers == (if settles then Timers(false, false, false) else old(timers).(startup := false))
        && ending == (if settles then Begun(Resolved(old(ending))) else Resolved(old(ending)))
    {
      if started {
        return;
      }
      started := true;
      timers := timers.(startup := false);
      Accept(Event.Started(pid));
      ending := Resolved(ending);
    }

    static function Resolved(e: Ending): Ending {
      if e.start == StartPending then e.(start := StartResolved) else e
    }

    /** The process is over: confirm the start it never got to confirm, and settle its exit. */
    method ConfirmAndFinish(pid: Option<int>)
      requires Valid() && outcome.None?
      modifies `outcome, `settlement, `timers, `ending, queue, `started
      ensures Valid() && State() == OverWith(old(State()), child, pid)
    {
      ConfirmStarted(pid);
      FinishExit(child.facts);
    }

    // ---------- the handlers

    method OnLaunchFailure(message: string)
      requires Valid()
      modifies this
      ensures Valid() && State() == Step(old(State()), LaunchFails(message))
    {
      if child.launched || outcome.Some? {
        return;
      }
      assert Rendered(Snapshot([], [], NO_EXIT)) == Result([], [], NO_EXIT);
      Settle(Result([], [], NO_EXIT), false, Some(LaunchFault(message)), Snapshot([], [], NO_EXIT));
    }

    method OnSpawn(pid: Option<int>)
      requires Valid()
      modifies this, queue
      ensures Valid() && State() == Step(old(State()), Spawn(pid))
    {
      if child.attached {
        ConfirmStarted(pid);
      }
    }

    method OnError(message: string)
      requires Valid()
      modifies this
      ensures Valid() && State() == Step(old(State()), NativeError(message))
    {
      if child.attached {
        child := child.(startError := Some(message));
        if !started && !child.closed {
          Fail(Told(message));
        }
      }
    }

    method OnClose(pid: Option<int>, facts: ExitFacts)
      requires Valid()
      modifies this, queue
      ensures Valid() && State() == Step(old(State()), NativeClose(pid, facts))
    {
      if !child.attached || outcome.Some? {
        return;
      }
      CloseStep(State(), pid, facts);
      child := child.(closed := true, facts := facts);
      if child.startError.Some? && facts == NO_EXIT {
        ConfirmStarted(pid);
        Fail(Told(child.startError.value));
      } else {
        ConfirmAndFinish(pid);
      }
    }

    method OnExit(facts: ExitFacts)
      requires Valid()
      modifies this
      ensures Valid() && State() == Step(old(State()), NativeExit(facts))
    {
      if !child.attached || outcome.Some? || child.closed || timers.drain {
        return;
      }
      child := child.(facts := facts);
      timers := timers.(drain := true);
    }

    method OnDrainTimer(pid: Option<int>)
      requires Valid()
      modifies this, queue
      ensures Valid() && State() == Step(old(State()), DrainFires(pid))
    {
      DrainStep(State(), pid);
      if !timers.drain {
        return;
      }
      timers := timers.(drain := false);
      if !child.attached || outcome.Some? || child.closed {
        return;
      }
      ConfirmAndFinish(pid);
    }

    method ApplyStdout(chunk: seq<Byte>)
      requires Valid()
      modifies this, queue, stdoutTail
      ensures Valid() && State() == Step(old(State()), StdoutData(chunk))
    {
      if !child.attached || outcome.Some? {
        return;
      }
      stdoutTail.Push(chunk);
      Accept(Stdout(chunk));
    }

    method ApplyStderr(chunk: seq<Byte>)
      requires Valid()
      modifies this, queue, stderrTail
      ensures Valid() && State() == Step(old(State()), StderrData(chunk))
    {
      if !child.attached || outcome.Some? {
        return;
      }
      stderrTail.Push(chunk);
      Accept(Stderr(chunk));
    }

    method OnStreamFault(message: string)
      requires Valid()
      modifies this
      ensures Valid() && State() == Step(old(State()), StreamFault(message))
    {
      if child.attached {
        Fail(Told(message));
      }
    }

    method OnProvenanceFailure(message: string)
      requires Valid()
      modifies this
      ensures Valid() && State() == Step(old(State()), ProvenanceFails(message))
    {
      if !child.attached || child.provenanceFault.Some? {
        return;
      }
      child := child.(provenanceFault := Some(message));
      TerminateProcessTree();
    }

    method OnProvenanceTerminated()
      requires Valid()
      modifies this
      ensures Valid() && State() == Step(old(State()), ProvenanceResumes)
    {
      if child.attached && child.provenanceFault.Some? && ending.tree.Terminated? {
        Fail(Unrecorded(child.provenanceFault.value));
      }
    }

    method OnTimeout()
      requires Valid() && (timers.timeout ==> child.attached)
      modifies this
      ensures Valid() && State() == Step(old(State()), TimeoutFires)
    {
      if !timers.timeout {
        return;
      }
      timers := timers.(timeout := false);
      if outcome.None? {
        Fail(TimedOut);
      }
    }

    method OnStartupTimeout(diagnosis: Option<string>)
      requires Valid() && (timers.startup ==> child.attached)
      modifies this
      ensures Valid() && State() == Step(old(State()), StartupFires(diagnosis))
    {
      if !timers.startup {
        return;
      }
      timers := timers.(startup := false);
      if outcome.None? {
        Fail(StartupFault(diagnosis));
      }
    }

    method Cancel()
      requires Valid()
      modifies this
      ensures Valid() && State() == Step(old(State()), SessionSpec.Cancel)
    {
      if !child.launched || ending.cancel != NotCancelled {
        return;
      }
      MarkCancelled();
    }

    method MarkCancelled()
      requires Valid()
      modifies `outcome, `settlement, `timers, `ending
      ensures Valid() && State() == CancelledAs(old(State()))
    {
      ending := ending.(cancel := Cancelling);
      if outcome.None? {
        Fail(CancelledRun);
      }
    }

    method Write(sinkAvailable: bool)
      requires Valid()
      modifies this
      ensures Valid() && State() == Step(old(State()), SessionSpec.Write(sinkAvailable))
    {
      if !child.attached || child.inputClosed || outcome.Some? {
        return;
      }
      if !sinkAvailable {
        Fail(InputUnavailable);
      }
    }

    method CloseInput()
      requires Valid()
      modifies this
      ensures Valid() && State() == Step(old(State()), SessionSpec.CloseInput)
    {
      if !child.attached || child.inputClosed || outcome.Some? {
        return;
      }
      child := child.(inputClosed := true);
    }

    /** One step of whoever iterates the events. */
    method NextEvent() returns (r: Pull<Event>)
      requires Valid()
      modifies queue
      ensures Valid() && State() == Step(old(State()), Consume)
      ensures queue.delivered == old(queue.delivered) + (if r.Yielded? then [r.value] else [])
    {
      r := queue.Next();
    }

    // ---------- the asynchronous end of a settlement

    method OnTreeEnded(failure: Option<string>)
      requires Valid()
      modifies this
      ensures Valid() && State() == Step(old(State()), TreeEnds(failure))
    {
      if ending.tree == Terminating {
        ending := ending.(tree := Terminated(if child.launched then failure else None));
      }
    }

    method CleanupOwnedResources()
      requires Valid()
      modifies this
      ensures Valid() && State() == Step(old(State()), FilesReleased)
    {
      if outcome.None? || !ending.tree.Terminated? || ending.released.Some? {
        return;
      }
      ending := ending.(released := Some(Release(outcome.value.success, !started)));
    }

    method PublishFrames(report: Option<Report>)
      requires Valid() && outcome.Some?
      modifies queue, `result, `closing
      ensures Valid() && FeedNow() == Finished(old(FeedNow()), Closing(report, outcome.value.value.facts))
    {
      if report.Some? {
        queue.ForcePush(Error(report.value));
      }
      queue.ForcePush(Event.Exit(outcome.value.value.facts));
      queue.Close();
      result := Some(outcome.value.value);
      closing := Some(Closing(report, outcome.value.value.facts));
    }

    /** The closing frames, then the result, and the rejection of a start that never came. */
    method Publish(homeFailure: Option<string>)
      requires Valid()
      modifies this, queue
      ensures Valid() && State() == Step(old(State()), SessionSpec.Publish(homeFailure))
    {
      if outcome.None? || !ending.tree.Terminated? || ending.released.None? || result.Some? {
        return;
      }
      PublishStep(State(), homeFailure);
      var leftover := if ending.tree.failure.Some? then Some(TreeAlive(ending.tree.failure.value))
                      else if homeFailure.Some? then Some(HomeKept(homeFailure.value)) else None;
      var report := Report(outcome.value.fault, leftover);
      PublishFrames(if report.Silent() then None else Some(report));
      if !started && ending.start == StartPending {
        ending := ending.(start := StartRejected);
      }
    }

    method OnCancelReturn()
      requires Valid()
      modifies this
      ensures Valid() && State() == Step(old(State()), CancelReturns)
    {
      if ending.cancel == Cancelling && result.Some? && ending.tree.Terminated? {
        ending := ending.(cancel := if ending.tree.failure.None? then Cancelled else CancelFailed);
      }
    }

    /** Listeners go on, an exit that came before them is replayed, an abort that came before
        them is honoured, and the timers are armed. */
    method OnAttach(pid: Option<int>, replay: Option<ExitFacts>, aborted: bool, timeout: bool)
      requires Valid()
      modifies this, queue
      ensures Valid() && State() == Step(old(State()), Attach(pid, replay, aborted, timeout))
    {
      if child.launched || outcome.Some? {
        return;
      }
      AttachStep(State(), pid, replay, aborted, timeout);
      child := child.(launched := true, attached := true);
      if replay.Some? {
        child := child.(closed := true, facts := replay.value);
        ConfirmAndFinish(pid);
      }
      if aborted && ending.cancel == NotCancelled {
        MarkCancelled();
      }
      timers := Timers(timeout, true, false);
    }
  }
}
