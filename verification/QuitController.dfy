/** The quit controller as an object: its flags, and one method for every request, timer and
    promise that moves it. */
module QuitControllers {
  import opened QuitSpec
  import opened Wrappers

  class QuitController {
    var quitting: bool
    var finishing: bool
    var settled: bool
    var force: ForcePromise
    var blocking: bool
    var systemShutdown: bool
    var dialogOpen: bool
    var timerArmed: bool
    // Which asynchronous functions are suspended, and on what.
    var drainReading: bool
    var pollReading: bool
    var suspended: Suspended
    // What was done to the daemon, the dialog and the application.
    var effects: seq<Effect>

    ghost function State(): Quit
      reads this
    {
      Quit(quitting, finishing, settled, force, blocking, systemShutdown, dialogOpen, timerArmed,
        drainReading, pollReading, suspended, effects)
    }

    constructor ()
      ensures State() == START
    {
      quitting, finishing, settled, force := false, false, false, Absent;
      blocking, systemShutdown, dialogOpen, timerArmed := false, false, false, false;
      drainReading, pollReading, suspended, effects := false, false, Nowhere, [];
    }

    method ClearTimer()
      modifies this`timerArmed
      ensures !timerArmed
    {
      if timerArmed { timerArmed := false; }
    }

    method ForceOwnedDaemon(owned: bool)
      modifies this
      ensures State() == ForceStarted(old(State()), owned)
    {
      if force == Absent {
        force := Pending;
        effects := effects + [ForceCancel(owned)];
      }
    }

    /** The last lines of `finish`. */
    method ExitNow()
      modifies this
      ensures State() == Exited(old(State()))
    {
      settled, suspended := true, Nowhere;
      if dialogOpen {
        dialogOpen := false;
        effects := effects + [DialogClosed];
      }
      effects := effects + [Exit];
    }

    method AfterTeardown()
      modifies this
      ensures State() == StopEnded(old(State()))
    {
      if force != Absent {
        suspended := OnForce;
      } else {
        ExitNow();
      }
    }

    method Begin()
      modifies this
      ensures State() == Begun(old(State()))
    {
      finishing := true;
      blocking := false;
      ClearTimer();
      effects := effects + [FinishBegun];
    }

    method StopDaemon(owned: bool)
      modifies this
      ensures State() == Record(old(State()), Stop(owned)).(suspended := OnStop)
    {
      effects := effects + [Stop(owned)];
      suspended := OnStop;
    }

    method Finish(forced: bool, owned: bool)
      modifies this
      ensures State() == Finished(old(State()), forced, owned)
    {
      if settled { return; }
      if finishing {
        if forced && owned { ForceOwnedDaemon(owned); }
        return;
      }
      Begin();
      if owned {
        if forced {
          ForceOwnedDaemon(owned);
          suspended := OnForce;
        } else {
          StopDaemon(owned);
        }
      } else {
        AfterTeardown();
      }
    }

    method FinishByForce(owned: bool)
      modifies this
      ensures State() == Forced(old(State()), owned)
    {
      effects := effects + [ForceAsked];
      Finish(true, owned);
    }

    method RequestQuit(bypassDrain: bool, owned: bool)
      modifies this
      ensures State() == Requested(old(State()), bypassDrain, owned)
    {
      if bypassDrain {
        quitting := true;
        effects := effects + [Bypassed];
        Finish(false, owned);
        return;
      }
      if quitting { return; }
      quitting := true;
      if !owned {
        Finish(false, owned);
      } else if systemShutdown {
        FinishByForce(owned);
      } else {
        drainReading := true;
      }
    }

    method ForceQuit(owned: bool)
      modifies this
      ensures State() == Step(old(State()), Action.ForceQuit(owned))
    {
      systemShutdown := true;
      quitting := true;
      FinishByForce(owned);
    }

    method MarkSystemShutdown()
      modifies this
      ensures State() == Step(old(State()), Action.MarkSystemShutdown)
    {
      systemShutdown := true;
    }

    /** The drain's status read has returned; `opens` says whether the presenter can open. */
    method OnDrainReply(counts: Option<bool>, opens: bool, owned: bool)
      modifies this
      ensures State() == Drained(old(State()), counts, opens, owned)
    {
      if !drainReading { return; }
      drainReading := false;
      if finishing || settled { return; }
      if counts == Some(true) {
        effects := effects + [IdleReported];
        Finish(false, owned);
        return;
      }
      blocking := true;
      if !opens {
        effects := effects + [DialogFailed];
        Finish(false, owned);
        return;
      }
      dialogOpen := true;
      effects := effects + [DialogOpened];
      timerArmed := true;
    }

    method OnTimer()
      modifies this
      ensures State() == TimerFired(old(State()))
    {
      if !timerArmed { return; }
      timerArmed := false;
      pollReading := blocking;
    }

    method OnPollReply(counts: Option<bool>, owned: bool)
      modifies this
      ensures State() == Polled(old(State()), counts, owned)
    {
      if !pollReading { return; }
      pollReading := false;
      if !blocking { return; }
      if counts == Some(true) {
        effects := effects + [IdleReported];
        Finish(false, owned);
        return;
      }
      timerArmed := true;
    }

    /** The user chose to end by force; only a dialog that was opened offers that. */
    method OnForced(owned: bool)
      modifies this
      ensures State() == Step(old(State()), ForceChosen(owned))
    {
      if DialogOpened in effects { FinishByForce(owned); }
    }

    method OnStopReturns()
      modifies this
      ensures State() == Step(old(State()), StopReturns)
    {
      if suspended == OnStop { AfterTeardown(); }
    }

    method OnForceReturns()
      modifies this
      ensures State() == Step(old(State()), ForceReturns)
    {
      if force == Pending {
        force := Done;
        effects := effects + [ForceSettled];
      }
    }

    method OnFinishResumes()
      modifies this
      ensures State() == Step(old(State()), FinishResumes)
    {
      if suspended == OnForce && force == Done { ExitNow(); }
    }

    /** A second instance only focuses the dialog while one blocks the shell. */
    method HandleSecondInstance() returns (focused: bool)
      requires Inv(State())
      ensures focused <==> dialogOpen && !finishing
    {
      focused := blocking;
    }
  }
}
