/** Quitting the desktop shell: when a supervised daemon must drain first, when it is
    stopped or cancelled, and when the application may exit, as a state machine whose every
    effect is recorded. */
module QuitSpec {
  import opened Wrappers

  /** What becomes visible outside the controller, and what it was told. `Stop` and
      `ForceCancel` record whether the daemon was supervised at that moment. */
  datatype Effect =
    | Bypassed
    | ForceAsked
    | IdleReported
    | DialogOpened
    | DialogFailed
    | DialogClosed
    | FinishBegun
    | Stop(supervised: bool)
    | ForceCancel(supervised: bool)
    | ForceSettled
    | Exit

  datatype ForcePromise = Absent | Pending | Done

  /** Where the one run of `finish` that goes past its guards is suspended. */
  datatype Suspended = Nowhere | OnStop | OnForce

  datatype Quit = Quit(
    quitting: bool, finishing: bool, settled: bool, force: ForcePromise, blocking: bool,
    systemShutdown: bool, dialogOpen: bool, timerArmed: bool,
    drainReading: bool, pollReading: bool, suspended: Suspended, log: seq<Effect>)

  const START := Quit(false, false, false, Absent, false, false, false, false, false, false, Nowhere, [])

  function Record(q: Quit, e: Effect): Quit {
    q.(log := q.log + [e])
  }

  // ---------- finishing

  function ForceStarted(q: Quit, owned: bool): Quit {
    if q.force == Absent then Record(q.(force := Pending), ForceCancel(owned)) else q
  }

  function DialogGone(q: Quit): Quit {
    if q.dialogOpen then Record(q.(dialogOpen := false), DialogClosed) else q
  }

  /** The end of `finish`, once nothing is left to wait for. */
  function Exited(q: Quit): Quit {
    Record(DialogGone(q.(settled := true, suspended := Nowhere)), Exit)
  }

  /** Wait for a cancellation that was started meanwhile, or exit. */
  function StopEnded(q: Quit): Quit {
    if q.force == Absent then Exited(q) else q.(suspended := OnForce)
  }

  function Begun(q: Quit): Quit {
    Record(q.(finishing := true, blocking := false, timerArmed := false), FinishBegun)
  }

  function Finished(q: Quit, force: bool, owned: bool): Quit {
    if q.settled then q
    else if q.finishing then (if force && owned then ForceStarted(q, owned) else q)
    else if !owned then StopEnded(Begun(q))
    else if force then ForceStarted(Begun(q), owned).(suspended := OnForce)
    else Record(Begun(q), Stop(owned)).(suspended := OnStop)
  }

  // ---------- everything that can happen

  /** Each step that asks for the daemon mode carries the answer of that moment. A status
      reply is None when the daemon is unavailable, or else says whether it is idle. */
  datatype Action =
    | RequestQuit(bypassDrain: bool, owned: bool)
    | ForceQuit(owned: bool)
    | MarkSystemShutdown
    | DrainReply(counts: Option<bool>, opens: bool, owned: bool)
    | TimerFires
    | PollReply(counts: Option<bool>, owned: bool)
    | ForceChosen(owned: bool)
    | StopReturns
    | ForceReturns
    | FinishResumes

  /** Somebody asks to end by force: the user, or the operating system. */
  function Forced(q: Quit, owned: bool): Quit {
    Finished(Record(q, ForceAsked), true, owned)
  }

  function Requested(q: Quit, bypassDrain: bool, owned: bool): Quit {
    if bypassDrain then Finished(Record(q.(quitting := true), Bypassed), false, owned)
    else if q.quitting then q
    else
      var r := q.(quitting := true);
      if !owned then Finished(r, false, owned)
      else if r.systemShutdown then Forced(r, owned)
      else r.(drainReading := true)
  }

  function Drained(q: Quit, counts: Option<bool>, opens: bool, owned: bool): Quit {
    if !q.drainReading then q
    else
      var r := q.(drainReading := false);
      if r.finishing || r.settled then r
      else if counts == Some(true) then Finished(Record(r, IdleReported), false, owned)
      else if !opens then Finished(Record(r.(blocking := true), DialogFailed), false, owned)
      else Record(r.(blocking := true, dialogOpen := true, timerArmed := true), DialogOpened)
  }

  function TimerFired(q: Quit): Quit {
    if !q.timerArmed then q
    else q.(timerArmed := false, pollReading := q.blocking)
  }

  function Polled(q: Quit, counts: Option<bool>, owned: bool): Quit {
    if !q.pollReading then q
    else
      var r := q.(pollReading := false);
      if !r.blocking then r
      else if counts == Some(true) then Finished(Record(r, IdleReported), false, owned)
      else r.(timerArmed := true)
  }

  function Step(q: Quit, a: Action): Quit {
    match a
    case RequestQuit(bypassDrain, owned) => Requested(q, bypassDrain, owned)
    case ForceQuit(owned) => Forced(q.(systemShutdown := true, quitting := true), owned)
    case MarkSystemShutdown => q.(systemShutdown := true)
    case DrainReply(counts, opens, owned) => Drained(q, counts, opens, owned)
    case TimerFires => TimerFired(q)
    case PollReply(counts, owned) => Polled(q, counts, owned)
    case ForceChosen(owned) => if DialogOpened in q.log then Forced(q, owned) else q
    case StopReturns => if q.suspended == OnStop then StopEnded(q) else q
    case ForceReturns => if q.force == Pending then Record(q.(force := Done), ForceSettled) else q
    case FinishResumes => if q.suspended == OnForce && q.force == Done then Exited(q) else q
  }

  function Run(q: Quit, actions: seq<Action>): Quit
    decreases |actions|
  {
    if actions == [] then q else Run(Step(q, actions[0]), actions[1..])
  }

  // ---------- what may follow what

  /** What a quit promises of each effect, given everything before it. */
  predicate Allowed(before: seq<Effect>, e: Effect) {
    match e
    case Bypassed => true
    case ForceAsked => true
    case IdleReported => Exit !in before && FinishBegun !in before
    case DialogOpened => Exit !in before && FinishBegun !in before && DialogOpened !in before
    case DialogFailed => Exit !in before && FinishBegun !in before
    case DialogClosed => Exit !in before && DialogOpened in before && DialogClosed !in before
    case FinishBegun => Exit !in before && FinishBegun !in before
    case Stop(supervised) =>
      Exit !in before && supervised && Stop(true) !in before && FinishBegun in before
      && (IdleReported in before <==> Bypassed !in before && DialogFailed !in before)
    case ForceCancel(supervised) =>
      Exit !in before && supervised && ForceCancel(true) !in before && FinishBegun in before && ForceAsked in before
    case ForceSettled => Exit !in before && ForceCancel(true) in before && ForceSettled !in before
    case Exit =>
      Exit !in before && FinishBegun in before
      && (ForceCancel(true) in before ==> ForceSettled in before)
      && (DialogOpened in before ==> DialogClosed in before)
  }

  predicate Legal(log: seq<Effect>) {
    log == [] || (Legal(log[..|log| - 1]) && Allowed(log[..|log| - 1], log[|log| - 1]))
  }

  /** How the controller's variables reflect what has happened. */
  ghost predicate Reflects(q: Quit) {
    && (q.finishing <==> FinishBegun in q.log)
    && (q.settled <==> Exit in q.log)
    && (q.force != Absent <==> ForceCancel(true) in q.log)
    && (q.force == Done <==> ForceSettled in q.log)
    && (q.dialogOpen <==> DialogOpened in q.log && DialogClosed !in q.log)
    && (DialogClosed in q.log ==> q.settled)
    && (Stop(true) in q.log ==> q.finishing)
  }

  /** How the variables fit each other. */
  ghost predicate Consistent(q: Quit) {
    && (q.settled ==> q.finishing)
    && (q.finishing ==> q.quitting && !q.blocking && !q.timerArmed)
    && (q.blocking <==> q.dialogOpen && !q.finishing)
    && (q.finishing && !q.settled <==> q.suspended != Nowhere)
    && (q.suspended == OnForce ==> q.force != Absent)
    && (q.drainReading ==> DialogOpened !in q.log && q.quitting)
    && (DialogOpened in q.log ==> q.quitting)
    && (q.pollReading ==> DialogOpened in q.log)
    && (q.timerArmed ==> q.blocking && !q.pollReading)
    && (q.force != Absent ==> q.finishing)
    && (q.settled ==> q.force != Pending)
  }

  /** Each reason for a graceful finish begins it at once. */
  ghost predicate NoReasonYet(q: Quit) {
    !q.finishing ==> IdleReported !in q.log && Bypassed !in q.log && DialogFailed !in q.log
  }

  ghost predicate Core(q: Quit) {
    Legal(q.log) && Reflects(q) && Consistent(q)
  }

  ghost predicate Inv(q: Quit) {
    Core(q) && NoReasonYet(q)
  }

  // ---------- every step keeps it

  lemma RecordIs(log: seq<Effect>, e: Effect)
    ensures Legal(log + [e]) <==> Legal(log) && Allowed(log, e)
    ensures forall x :: x in log + [e] <==> x in log || x == e
  {
    assert (log + [e])[..|log|] == log;
  }

  lemma ExitedKeeps(q: Quit)
    requires Legal(q.log) && Reflects(q) && q.finishing && !q.settled && q.quitting
    requires !q.blocking && !q.timerArmed && q.force != Pending && !(q.drainReading && DialogOpened in q.log)
    requires q.pollReading ==> DialogOpened in q.log
    ensures Inv(Exited(q))
  {
    var r := q.(settled := true, suspended := Nowhere);
    if q.dialogOpen { RecordIs(r.log, DialogClosed); }
    RecordIs(DialogGone(r).log, Exit);
  }

  /** An idle report justifies a graceful stop exactly when nothing else does. */
  predicate MayStop(log: seq<Effect>) {
    IdleReported in log <==> Bypassed !in log && DialogFailed !in log
  }

  lemma ForceStartedKeeps(q: Quit)
    requires Legal(q.log) && Reflects(q) && q.finishing && !q.settled && ForceAsked in q.log
    ensures var r := ForceStarted(q, true);
      Legal(r.log) && Reflects(r) && (DialogOpened in r.log <==> DialogOpened in q.log)
  {
    RecordIs(q.log, ForceCancel(true));
  }

  lemma FinishedKeeps(q: Quit, force: bool, owned: bool)
    requires Core(q) && q.quitting
    requires !q.finishing && owned && !force ==> MayStop(q.log)
    requires force ==> ForceAsked in q.log
    ensures Inv(Finished(q, force, owned))
  {
    if q.settled {
    } else if q.finishing {
      if force && owned { ForceStartedKeeps(q); }
    } else {
      BegunKeeps(q);
      var b := Begun(q);
      if !owned {
        ExitedKeeps(b);
      } else if force {
        ForceStartedKeeps(b);
      } else {
        RecordIs(b.log, Stop(true));
      }
    }
  }

  lemma BegunKeeps(q: Quit)
    requires Core(q) && !q.finishing && !q.settled
    ensures Legal(Begun(q).log) && Reflects(Begun(q))
    ensures MayStop(q.log) ==> MayStop(Begun(q).log)
    ensures DialogOpened in Begun(q).log <==> DialogOpened in q.log
    ensures ForceAsked in q.log ==> ForceAsked in Begun(q).log
    ensures ForceCancel(true) !in Begun(q).log && Stop(true) !in Begun(q).log
  {
    RecordIs(q.log, FinishBegun);
  }

  lemma NotedKeeps(q: Quit, e: Effect)
    requires Inv(q) && Allowed(q.log, e) && e in {Bypassed, IdleReported, DialogFailed}
    ensures Core(Record(q, e)) && (!q.finishing ==> MayStop(Record(q, e).log))
  {
    RecordIs(q.log, e);
  }

  lemma ForcedKeeps(q: Quit, owned: bool)
    requires Inv(q) && q.quitting
    ensures Inv(Forced(q, owned))
  {
    RecordIs(q.log, ForceAsked);
    FinishedKeeps(Record(q, ForceAsked), true, owned);
  }

  lemma RequestedKeeps(q: Quit, bypassDrain: bool, owned: bool)
    requires Inv(q)
    ensures Inv(Requested(q, bypassDrain, owned))
  {
    var r := q.(quitting := true);
    assert Inv(r);
    if bypassDrain {
      NotedKeeps(r, Bypassed);
      FinishedKeeps(Record(r, Bypassed), false, owned);
    } else if !q.quitting {
      if !owned {
        FinishedKeeps(r, false, owned);
      } else if r.systemShutdown {
        ForcedKeeps(r, owned);
      }
    }
  }

  /** Finishing clears the blocking flag, so it does not matter that it was set. */
  lemma BlockingForgotten(q: Quit, force: bool, owned: bool)
    requires !q.finishing && !q.settled
    ensures Finished(q.(blocking := true), force, owned) == Finished(q, force, owned)
  {
    assert Begun(q.(blocking := true)) == Begun(q);
  }

  lemma DrainedKeeps(q: Quit, counts: Option<bool>, opens: bool, owned: bool)
    requires Inv(q)
    ensures Inv(Drained(q, counts, opens, owned))
  {
    var r := q.(drainReading := false);
    assert Inv(r);
    if q.drainReading && !r.finishing {
      if counts == Some(true) {
        NotedKeeps(r, IdleReported);
        FinishedKeeps(Record(r, IdleReported), false, owned);
      } else if !opens {
        NotedKeeps(r, DialogFailed);
        BlockingForgotten(Record(r, DialogFailed), false, owned);
        FinishedKeeps(Record(r, DialogFailed), false, owned);
      } else {
        RecordIs(r.log, DialogOpened);
      }
    }
  }

  lemma PolledKeeps(q: Quit, counts: Option<bool>, owned: bool)
    requires Inv(q)
    ensures Inv(Polled(q, counts, owned))
  {
    var r := q.(pollReading := false);
    assert Inv(r);
    if q.pollReading && r.blocking && counts == Some(true) {
      NotedKeeps(r, IdleReported);
      FinishedKeeps(Record(r, IdleReported), false, owned);
    }
  }

  lemma TimerFiredKeeps(q: Quit)
    requires Inv(q)
    ensures Inv(TimerFired(q))
  {
  }

  lemma StopReturnsKeeps(q: Quit)
    requires Inv(q)
    ensures Inv(Step(q, StopReturns))
  {
    if q.suspended == OnStop && q.force == Absent { ExitedKeeps(q); }
  }

  lemma ForceReturnsKeeps(q: Quit)
    requires Inv(q)
    ensures Inv(Step(q, ForceReturns))
  {
    if q.force == Pending { RecordIs(q.log, ForceSettled); }
  }

  lemma FinishResumesKeeps(q: Quit)
    requires Inv(q)
    ensures Inv(Step(q, FinishResumes))
  {
    if q.suspended == OnForce && q.force == Done { ExitedKeeps(q); }
  }

  lemma StepKeeps(q: Quit, a: Action)
    requires Inv(q)
    ensures Inv(Step(q, a))
  {
    match a
    case RequestQuit(bypassDrain, owned) => RequestedKeeps(q, bypassDrain, owned);
    case ForceQuit(owned) => ForcedKeeps(q.(systemShutdown := true, quitting := true), owned);
    case MarkSystemShutdown => assert Inv(q.(systemShutdown := true));
    case DrainReply(counts, opens, owned) => DrainedKeeps(q, counts, opens, owned);
    case TimerFires => TimerFiredKeeps(q);
    case PollReply(counts, owned) => PolledKeeps(q, counts, owned);
    case ForceChosen(owned) => if DialogOpened in q.log { ForcedKeeps(q, owned); }
    case StopReturns => StopReturnsKeeps(q);
    case ForceReturns => ForceReturnsKeeps(q);
    case FinishResumes => FinishResumesKeeps(q);
  }

  lemma {:induction false} RunKeeps(q: Quit, actions: seq<Action>)
    requires Inv(q)
    ensures Inv(Run(q, actions))
    decreases |actions|
  {
    if actions == [] {
    } else {
      StepKeeps(q, actions[0]);
      RunKeeps(Step(q, actions[0]), actions[1..]);
    }
  }

  lemma {:induction false} LegalEverywhere(log: seq<Effect>, i: nat)
    requires Legal(log) && i < |log|
    ensures Allowed(log[..i], log[i])
    decreases |log|
  {
    if i < |log| - 1 {
      LegalEverywhere(log[..|log| - 1], i);
      assert log[..|log| - 1][..i] == log[..i];
    }
  }

  /** Over every interleaving, each effect had everything before it that it needs: at most
      one exit, nothing but a late bypass after it, no exit while a cancellation is open or a
      dialog shows, no dialog once finishing has begun, and only a supervised daemon is ever
      stopped or cancelled. */
  lemma EveryEffectIsAllowed(actions: seq<Action>, i: nat)
    requires i < |Run(START, actions).log|
    ensures var log := Run(START, actions).log; Allowed(log[..i], log[i])
  {
    RunKeeps(START, actions);
    LegalEverywhere(Run(START, actions).log, i);
  }

  // ---------- graceful stops

  /** At every graceful stop, the daemon has reported that it is idle exactly when neither a
      bypass nor a dialog that could not open came first. */
  lemma StopsOnlyWhenIdle(actions: seq<Action>, i: nat)
    requires i < |Run(START, actions).log| && Run(START, actions).log[i].Stop?
    ensures var before := Run(START, actions).log[..i];
      IdleReported in before <==> Bypassed !in before && DialogFailed !in before
  {
    EveryEffectIsAllowed(actions, i);
  }

  /** A daemon was stopped gracefully although it had not reported that it is idle. */
  predicate StoppedUnasked(q: Quit) {
    Stop(true) in q.log && IdleReported !in q.log
  }

  /** What stops an owned daemon past the drain: a bypassing request, or an awaited status
      that is not idle while the dialog cannot open; before any finish has begun. */
  predicate SkipsDrain(q: Quit, a: Action) {
    !q.finishing && match a
      case RequestQuit(bypassDrain, owned) => bypassDrain && owned
      case DrainReply(counts, opens, owned) => q.drainReading && counts != Some(true) && !opens && owned
      case _ => false
  }

  /** Once finishing has begun, neither a graceful stop nor an idle report is added. */
  lemma FinishingSettlesStops(q: Quit, force: bool, owned: bool)
    requires q.finishing
    ensures var r := Finished(q, force, owned);
      (Stop(true) in r.log <==> Stop(true) in q.log) && (IdleReported in r.log <==> IdleReported in q.log)
  {
    RecordIs(q.log, ForceCancel(owned));
  }

  lemma ExitedStops(q: Quit)
    ensures var r := Exited(q);
      (Stop(true) in r.log <==> Stop(true) in q.log) && (IdleReported in r.log <==> IdleReported in q.log)
  {
    RecordIs(q.log, DialogClosed);
    RecordIs(DialogGone(q.(settled := true, suspended := Nowhere)).log, Exit);
  }

  /** What the first finish adds. */
  lemma FirstFinishStops(q: Quit, force: bool, owned: bool)
    requires !q.finishing && !q.settled && Stop(true) !in q.log
    ensures var r := Finished(q, force, owned);
      (Stop(true) in r.log <==> owned && !force) && (IdleReported in r.log <==> IdleReported in q.log)
  {
    var b := Begun(q);
    RecordIs(q.log, FinishBegun);
    RecordIs(b.log, ForceCancel(owned));
    RecordIs(b.log, Stop(owned));
    ExitedStops(b);
  }

  lemma NotedFinish(q: Quit, e: Effect, force: bool, owned: bool)
    requires Inv(q) && e in {Bypassed, ForceAsked, IdleReported, DialogFailed}
    requires q.finishing ==> e in {Bypassed, ForceAsked}
    ensures var r := Finished(Record(q, e), force, owned);
      StoppedUnasked(r) <==> if q.finishing then StoppedUnasked(q) else owned && !force && e != IdleReported
  {
    RecordIs(q.log, e);
    if q.finishing {
      FinishingSettlesStops(Record(q, e), force, owned);
    } else {
      FirstFinishStops(Record(q, e), force, owned);
    }
  }

  lemma RequestStops(q: Quit, bypassDrain: bool, owned: bool)
    requires Inv(q)
    ensures StoppedUnasked(Requested(q, bypassDrain, owned))
       <==> StoppedUnasked(q) || SkipsDrain(q, RequestQuit(bypassDrain, owned))
  {
    var r := q.(quitting := true);
    assert Inv(r);
    if bypassDrain {
      NotedFinish(r, Bypassed, false, owned);
    } else if !q.quitting && !owned {
      FirstFinishStops(r, false, owned);
    } else if !q.quitting && r.systemShutdown {
      NotedFinish(r, ForceAsked, true, owned);
    }
  }

  lemma DrainStops(q: Quit, counts: Option<bool>, opens: bool, owned: bool)
    requires Inv(q)
    ensures StoppedUnasked(Drained(q, counts, opens, owned))
       <==> StoppedUnasked(q) || SkipsDrain(q, DrainReply(counts, opens, owned))
  {
    var r := q.(drainReading := false);
    assert Inv(r);
    if q.drainReading && !r.finishing {
      if counts == Some(true) {
        NotedFinish(r, IdleReported, false, owned);
      } else if !opens {
        NotedFinish(r, DialogFailed, false, owned);
        BlockingForgotten(Record(r, DialogFailed), false, owned);
      } else {
        RecordIs(r.log, DialogOpened);
      }
    }
  }

  lemma PollStops(q: Quit, counts: Option<bool>, owned: bool)
    requires Inv(q)
    ensures StoppedUnasked(Polled(q, counts, owned)) <==> StoppedUnasked(q)
  {
    var r := q.(pollReading := false);
    assert Inv(r);
    if q.pollReading && r.blocking && counts == Some(true) { NotedFinish(r, IdleReported, false, owned); }
  }

  lemma ForceStops(q: Quit, owned: bool)
    requires Inv(q)
    ensures StoppedUnasked(Forced(q, owned)) <==> StoppedUnasked(q)
  {
    NotedFinish(q, ForceAsked, true, owned);
  }

  /** One step stops a daemon without an idle report exactly when it skips the drain. */
  lemma StepStopsUnaskedExactlyWhen(q: Quit, a: Action)
    requires Inv(q)
    ensures StoppedUnasked(Step(q, a)) <==> StoppedUnasked(q) || SkipsDrain(q, a)
  {
    match a
    case RequestQuit(bypassDrain, owned) => RequestStops(q, bypassDrain, owned);
    case ForceQuit(owned) =>
      var r := q.(systemShutdown := true, quitting := true);
      assert Inv(r);
      ForceStops(r, owned);
    case MarkSystemShutdown =>
    case DrainReply(counts, opens, owned) => DrainStops(q, counts, opens, owned);
    case TimerFires =>
    case PollReply(counts, owned) => PollStops(q, counts, owned);
    case ForceChosen(owned) => ForceStops(q, owned);
    case StopReturns => ExitedStops(q);
    case ForceReturns => RecordIs(q.log, ForceSettled);
    case FinishResumes => ExitedStops(q);
  }

  predicate SkipsSomewhere(q: Quit, actions: seq<Action>)
    decreases |actions|
  {
    actions != [] && (SkipsDrain(q, actions[0]) || SkipsSomewhere(Step(q, actions[0]), actions[1..]))
  }

  lemma {:induction false} RunStopsUnasked(q: Quit, actions: seq<Action>)
    requires Inv(q)
    ensures StoppedUnasked(Run(q, actions)) <==> StoppedUnasked(q) || SkipsSomewhere(q, actions)
    decreases |actions|
  {
    if actions == [] {
    } else {
      StepKeeps(q, actions[0]);
      StepStopsUnaskedExactlyWhen(q, actions[0]);
      RunStopsUnasked(Step(q, actions[0]), actions[1..]);
    }
  }

  /** Over every run: a daemon is stopped gracefully without having reported that it is idle
      exactly when some action of the run skips the drain. */
  lemma StopsUnaskedExactlyWhen(actions: seq<Action>)
    ensures StoppedUnasked(Run(START, actions)) <==> SkipsSomewhere(START, actions)
  {
    RunStopsUnasked(START, actions);
  }

  /** Why the dialog has to open: when it cannot, the drain gives up and stops a daemon that
      never reported idle. */
  lemma FailingDialogStopsBusyDaemon()
    ensures var q := Run(START, [RequestQuit(false, true), DrainReply(Some(false), false, true)]);
      StoppedUnasked(q)
  {
    var first, second := RequestQuit(false, true), DrainReply(Some(false), false, true);
    assert [first, second][1..] == [second] && [second][1..] == [];
    var r := Step(START, first);
    assert Run(r, [second]) == Step(r, second);
    assert Step(r, second).log == [DialogFailed, FinishBegun, Stop(true)];
  }

  // ---------- finishing ends

  lemma AfterStop(q: Quit)
    requires Inv(q) && q.finishing
    ensures var r := Step(q, StopReturns); r.settled || (r.suspended == OnForce && r.force != Absent)
  {
  }

  lemma ForceReturned(q: Quit)
    requires q.settled || (q.suspended == OnForce && q.force != Absent)
    ensures var r := Step(q, ForceReturns); r.settled || (r.suspended == OnForce && r.force == Done)
  {
  }

  lemma FinishResumed(q: Quit)
    requires q.settled || (q.suspended == OnForce && q.force == Done)
    ensures Step(q, FinishResumes).settled
  {
    ExitedIsSettled(q);
  }

  lemma ExitedIsSettled(q: Quit)
    ensures Exited(q).settled
  {
  }

  lemma ThreeSteps(q: Quit, a: Action, b: Action, c: Action)
    ensures Run(q, [a, b, c]) == Step(Step(Step(q, a), b), c)
  {
    assert [a, b, c][1..] == [b, c] && [b, c][1..] == [c] && [c][1..] == [];
    var r := Step(q, a);
    assert Run(r, [b, c]) == Run(Step(r, b), [c]);
  }

  /** A finish that has begun exits as soon as what it waits for returns. */
  lemma FinishCompletes(q: Quit)
    requires Inv(q) && q.finishing
    ensures Run(q, [StopReturns, ForceReturns, FinishResumes]).settled
  {
    ThreeSteps(q, StopReturns, ForceReturns, FinishResumes);
    AfterStop(q);
    var r := Step(q, StopReturns);
    ForceReturned(r);
    FinishResumed(Step(r, ForceReturns));
  }

  /** A settled controller has shown its last effect: only requests are still noted. */
  lemma NothingAfterExit(q: Quit, a: Action)
    requires Inv(q) && q.settled
    ensures Step(q, a).log == q.log || Step(q, a).log in {q.log + [Bypassed], q.log + [ForceAsked]}
    ensures Step(q, a).settled
  {
    assert q.force == Done || q.force == Absent;
  }

  // ---------- requests are heeded

  /** Asked by force before the exit, a supervised daemon is cancelled: at once, or as the
      escalation of a graceful stop. */
  lemma ForceIsHeeded(q: Quit, a: Action)
    requires Inv(q) && !q.settled
    requires a == ForceQuit(true) || (a == ForceChosen(true) && DialogOpened in q.log)
    ensures var r := Step(q, a); Inv(r) && ForceCancel(true) in r.log && r.finishing && !r.settled
  {
    StepKeeps(q, a);
  }

  /** An idle report stops a supervised daemon gracefully, and never cancels it. */
  lemma IdleReportStops(q: Quit)
    requires Inv(q) && q.pollReading && q.blocking
    ensures var r := Step(q, PollReply(Some(true), true));
      Inv(r) && Stop(true) in r.log && ForceCancel(true) !in r.log && r.suspended == OnStop
  {
    PolledKeeps(q, Some(true), true);
    assert q.force == Absent;
  }

  /** Without a daemon of its own a quit exits at once and touches none. */
  lemma ConnectedQuitExits(q: Quit)
    requires Inv(q) && !q.quitting
    ensures var r := Step(q, RequestQuit(false, false));
      Inv(r) && r.settled && Stop(true) !in r.log && ForceCancel(true) !in r.log
  {
    RequestedKeeps(q, false, false);
  }

  // ---------- draining goes on

  /** The system has said that it shuts down. */
  ghost predicate ShutdownMarked(actions: seq<Action>) {
    exists a :: a in actions && (a.MarkSystemShutdown? || a.ForceQuit?)
  }

  ghost predicate SameMarks(q: Quit, r: Quit) {
    r.systemShutdown == q.systemShutdown
  }

  lemma ExitedRemembers(q: Quit)
    ensures SameMarks(q, Exited(q)) && SameMarks(q, StopEnded(q)) && SameMarks(q, Begun(q))
  {
  }

  lemma ForceRemembers(q: Quit, owned: bool)
    ensures SameMarks(q, ForceStarted(q, owned))
  {
  }

  lemma FinishedRemembers(q: Quit, force: bool, owned: bool)
    ensures SameMarks(q, Finished(q, force, owned))
  {
    var b := Begun(q);
    ExitedRemembers(q);
    ExitedRemembers(b);
    ForceRemembers(q, owned);
    ForceRemembers(b, owned);
  }

  lemma ForcedRemembers(q: Quit, owned: bool)
    ensures SameMarks(q, Forced(q, owned))
  {
    FinishedRemembers(Record(q, ForceAsked), true, owned);
  }

  lemma RequestedRemembers(q: Quit, bypassDrain: bool, owned: bool)
    ensures SameMarks(q, Requested(q, bypassDrain, owned))
  {
    var r := q.(quitting := true);
    FinishedRemembers(Record(r, Bypassed), false, owned);
    FinishedRemembers(r, false, owned);
    ForcedRemembers(r, owned);
  }

  lemma DrainedRemembers(q: Quit, counts: Option<bool>, opens: bool, owned: bool)
    ensures SameMarks(q, Drained(q, counts, opens, owned))
  {
    var r := q.(drainReading := false);
    FinishedRemembers(Record(r, IdleReported), false, owned);
    FinishedRemembers(Record(r.(blocking := true), DialogFailed), false, owned);
  }

  lemma PolledRemembers(q: Quit, counts: Option<bool>, owned: bool)
    ensures SameMarks(q, Polled(q, counts, owned))
  {
    FinishedRemembers(Record(q.(pollReading := false), IdleReported), false, owned);
  }

  lemma StepRemembers(q: Quit, a: Action)
    ensures Step(q, a).systemShutdown <==> q.systemShutdown || a.MarkSystemShutdown? || a.ForceQuit?
  {
    match a
    case RequestQuit(bypassDrain, owned) => RequestedRemembers(q, bypassDrain, owned);
    case ForceQuit(owned) => ForcedRemembers(q.(systemShutdown := true, quitting := true), owned);
    case DrainReply(counts, opens, owned) => DrainedRemembers(q, counts, opens, owned);
    case PollReply(counts, owned) => PolledRemembers(q, counts, owned);
    case ForceChosen(owned) => ForcedRemembers(q, owned);
    case StopReturns => ExitedRemembers(q);
    case FinishResumes => ExitedRemembers(q);
    case TimerFires =>
    case ForceReturns =>
    case MarkSystemShutdown =>
  }

  lemma {:induction false} RunRemembers(q: Quit, actions: seq<Action>)
    ensures Run(q, actions).systemShutdown <==> q.systemShutdown || ShutdownMarked(actions)
    decreases |actions|
  {
    if actions != [] {
      StepRemembers(q, actions[0]);
      RunRemembers(Step(q, actions[0]), actions[1..]);
      assert forall a :: a in actions <==> a == actions[0] || a in actions[1..];
    }
  }

  /** The first request to quit with a supervised daemon asks it to drain and shows nothing
      yet; once the system has said that it shuts down, the daemon is cancelled instead. */
  lemma FirstRequestDrains(actions: seq<Action>)
    requires !Run(START, actions).quitting
    ensures var q := Run(START, actions); var r := Step(q, RequestQuit(false, true));
      if ShutdownMarked(actions)
      then r.log == q.log + [ForceAsked, FinishBegun, ForceCancel(true)] && r.suspended == OnForce
      else r.log == q.log && r.drainReading && r.quitting && !r.finishing
  {
    RunKeeps(START, actions);
    RunRemembers(START, actions);
    var q := Run(START, actions);
    assert !q.finishing && q.force == Absent;
    if q.systemShutdown {
      var r := q.(quitting := true);
      assert Forced(r, true).log == q.log + [ForceAsked] + [FinishBegun] + [ForceCancel(true)];
      assert q.log + [ForceAsked] + [FinishBegun] + [ForceCancel(true)]
          == q.log + [ForceAsked, FinishBegun, ForceCancel(true)];
    }
  }

  /** The awaited answer decides: an idle daemon is stopped, a busy one blocks the quit behind
      a dialog that polls, and without a dialog it is stopped all the same. A finish that has
      begun meanwhile is left alone. */
  lemma DrainReplyDecides(q: Quit, counts: Option<bool>, opens: bool)
    requires Inv(q) && q.drainReading
    ensures var r := Step(q, DrainReply(counts, opens, true));
      if q.finishing then r == q.(drainReading := false)
      else if counts == Some(true)
      then r.log == q.log + [IdleReported, FinishBegun, Stop(true)] && r.suspended == OnStop
      else if opens
      then r == q.(drainReading := false, blocking := true, dialogOpen := true, timerArmed := true,
                   log := q.log + [DialogOpened])
      else r.log == q.log + [DialogFailed, FinishBegun, Stop(true)] && r.suspended == OnStop
  {
    var first := if counts == Some(true) then IdleReported else DialogFailed;
    assert q.log + [first] + [FinishBegun] + [Stop(true)] == q.log + [first, FinishBegun, Stop(true)];
  }

  /** While the dialog blocks, the next look at the daemon is due or under way. */
  ghost predicate Polls(q: Quit) {
    q.blocking ==> q.timerArmed || q.pollReading
  }

  lemma {:induction false} RunPolls(q: Quit, actions: seq<Action>)
    requires Inv(q) && Polls(q)
    ensures Polls(Run(q, actions))
    decreases |actions|
  {
    if actions != [] {
      StepKeeps(q, actions[0]);
      RunPolls(Step(q, actions[0]), actions[1..]);
    }
  }

  lemma TwoSteps(q: Quit, a: Action, b: Action)
    ensures Run(q, [a, b]) == Step(Step(q, a), b)
  {
    assert [a, b][1..] == [b] && [b][1..] == [];
    assert Run(Step(q, a), [b]) == Run(Step(Step(q, a), b), []);
  }

  /** Over every run: while the dialog blocks, the next look finds out; a daemon that is idle
      by then is stopped, and one that is not keeps the quit blocked and is looked at again. */
  lemma BlockedQuitLooksAgain(actions: seq<Action>, counts: Option<bool>)
    requires Run(START, actions).blocking
    ensures var q := Run(START, actions); var r := Run(q, [TimerFires, PollReply(counts, true)]);
      if counts == Some(true)
      then r.log == q.log + [IdleReported, FinishBegun, Stop(true)] && r.suspended == OnStop
      else r == q.(timerArmed := true, pollReading := false)
  {
    RunKeeps(START, actions);
    RunPolls(START, actions);
    var q := Run(START, actions);
    TwoSteps(q, TimerFires, PollReply(counts, true));
    assert q.log + [IdleReported] + [FinishBegun] + [Stop(true)] == q.log + [IdleReported, FinishBegun, Stop(true)];
  }
}
