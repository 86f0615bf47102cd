/** The supervisor as an object: its fields, and one method for every call, timer and
    promise that moves it. */
module DaemonSupervisors {
  import opened SupervisorSpec
  import opened Wrappers

  class DesktopDaemonSupervisor {
    var proc: Option<nat>
    var starting: bool
    var stopping: bool
    var disposed: bool
    var restartTimes: seq<int>
    var restartTimer: Option<nat>
    // The serialised start, the stops that wait for their child, and the restarts that may go
    // on behind theirs.
    var startPromise: Starting
    var stops: multiset<Stopping>
    var resuming: nat
    // The clock, the armed timers and the child processes of the platform.
    var now: int
    var armed: map<nat, int>
    var nextTimer: nat
    var spawned: nat
    var alive: set<nat>
    var expecting: set<nat>
    var abandoned: set<nat>
    // When restarts were scheduled since the user's last own restart.
    ghost var scheduled: seq<int>

    ghost function State(): Supervisor
      reads this
    {
      Supervisor(proc, starting, stopping, disposed, restartTimes, restartTimer, startPromise, stops, resuming,
        now, armed, nextTimer, spawned, alive, expecting, abandoned, scheduled)
    }

    constructor ()
      ensures State() == FRESH
    {
      proc, starting, stopping, disposed := None, false, false, false;
      restartTimes, restartTimer, startPromise, stops, resuming := [], None, NotStarting, multiset{}, 0;
      now, armed, nextTimer := 0, map[], 0;
      spawned, alive, expecting, abandoned, scheduled := 0, {}, {}, {}, [];
    }

    method Start()
      modifies this`startPromise
      ensures State() == Started(old(State()))
    {
      if disposed || startPromise != NotStarting { return; }
      if proc != None { return; }
      startPromise := Probing;
    }

    method OnProbe(spawns: bool)
      modifies `startPromise, `spawned, `alive, `proc, `stopping, `starting
      ensures State() == ProbeReturned(old(State()), spawns)
    {
      if startPromise != Probing { return; }
      if !spawns {
        startPromise := NotStarting;
        return;
      }
      var id := SpawnChild();
      proc, stopping, starting := Some(id), false, true;
      startPromise := Launching(id);
    }

    method SpawnChild() returns (id: nat)
      modifies `spawned, `alive
      ensures id == old(spawned) && spawned == id + 1 && alive == old(alive) + {id}
    {
      id := spawned;
      spawned := spawned + 1;
      alive := alive + {id};
    }

    method OnLaunch(ready: bool)
      modifies `startPromise, `starting, `proc, `expecting, `abandoned
      ensures State() == LaunchReturned(old(State()), ready)
    {
      if !startPromise.Launching? { return; }
      var id := startPromise.id;
      starting := false;
      if !ready {
        if proc == Some(id) { proc := None; }
        expecting, abandoned := expecting + {id}, abandoned + {id};
      }
      startPromise := NotStarting;
    }

    /** The list without the times that have left the window. */
    method Prune()
      modifies this`restartTimes
      ensures restartTimes == Recent(old(restartTimes), now)
    {
      var recent, i := [], 0;
      while i < |restartTimes|
        invariant i <= |restartTimes|
        invariant recent + Recent(restartTimes[i..], now) == Recent(restartTimes, now)
      {
        assert restartTimes[i..][1..] == restartTimes[i + 1..];
        if now - restartTimes[i] < RESTART_WINDOW_MS { recent := recent + [restartTimes[i]]; }
        i := i + 1;
      }
      restartTimes := recent;
    }

    method ScheduleRestart()
      modifies `restartTimes, `scheduled, `restartTimer, `armed, `nextTimer
      ensures State() == Scheduled(old(State()))
    {
      Prune();
      if |restartTimes| >= MAX_RESTARTS { return; }
      var last := |RESTART_DELAYS_MS| - 1;
      var delay := RESTART_DELAYS_MS[if |restartTimes| < last then |restartTimes| else last];
      restartTimes := restartTimes + [now];
      scheduled := scheduled + [now];
      ArmRestartTimer(delay);
    }

    method ArmRestartTimer(delay: int)
      modifies `restartTimer, `armed, `nextTimer
      ensures restartTimer == Some(old(nextTimer)) && nextTimer == old(nextTimer) + 1
      ensures armed == old(armed)[old(nextTimer) := now + delay]
    {
      restartTimer := Some(nextTimer);
      armed := armed[nextTimer := now + delay];
      nextTimer := nextTimer + 1;
    }

    method OnProcessExit(id: nat, clean: bool)
      modifies this
      ensures State() == Exited(old(State()), id, clean)
    {
      if id !in alive {
        assert alive - {id} == alive;
        return;
      }
      alive := alive - {id};
      if proc != Some(id) { return; }
      proc := None;
      if starting || stopping || disposed || id in expecting || clean { return; }
      ScheduleRestart();
    }

    method OnTimer(timer: nat)
      modifies this
      ensures State() == TimerFired(old(State()), timer)
    {
      if timer !in armed || armed[timer] > now { return; }
      armed := armed - {timer};
      restartTimer := None;
      Start();
    }

    method ClearRestartTimer()
      modifies this`restartTimer, this`armed
      ensures State() == TimerCleared(old(State()))
    {
      if restartTimer != None {
        armed := armed - {restartTimer.value};
        restartTimer := None;
      }
    }

    method BeginStop(restarts: bool)
      modifies this
      ensures State() == StopBegun(old(State()), restarts)
    {
      ClearRestartTimer();
      if proc != None {
        stopping := true;
        stops := stops + multiset{Stopping(proc.value, restarts)};
        expecting := expecting + {proc.value};
      } else if restarts {
        resuming := resuming + 1;
      }
    }

    method Stop()
      modifies this
      ensures State() == Step(old(State()), StopBegins)
    {
      BeginStop(false);
    }

    /** A stop's wait for its child ends; `exited` says whether the child did. */
    method OnShutdown(stop: Stopping, exited: bool)
      modifies `stops, `stopping, `starting, `proc, `alive, `resuming
      ensures State() == StopEnded(old(State()), stop, exited)
    {
      if stop !in stops { return; }
      EndWait(stop);
      if exited { OnStopped(stop); }
    }

    method EndWait(stop: Stopping)
      modifies `stops, `stopping
      ensures stops == old(stops) - multiset{stop} && !stopping
    {
      stops := stops - multiset{stop};
      stopping := false;
    }

    method OnStopped(stop: Stopping)
      modifies `starting, `proc, `alive, `resuming
      ensures !starting && alive == old(alive) - {stop.id}
      ensures proc == if old(proc) == Some(stop.id) then None else old(proc)
      ensures resuming == old(resuming) + if stop.restarts then 1 else 0
    {
      starting := false;
      if proc == Some(stop.id) { proc := None; }
      alive := alive - {stop.id};
      if stop.restarts { resuming := resuming + 1; }
    }

    /** A user's restart begins with a stop of its own. */
    method Restart()
      modifies this
      ensures State() == Step(old(State()), RestartBegins)
    {
      BeginStop(true);
    }

    /** It goes on once that stop has succeeded. */
    method OnRestartResumes()
      modifies this
      ensures State() == RestartResumed(old(State()))
    {
      if resuming == 0 { return; }
      resuming := resuming - 1;
      restartTimes := [];
      scheduled := [];
      Start();
    }

    method Dispose()
      modifies this
      ensures State() == Disposed(old(State()))
    {
      disposed := true;
      ClearRestartTimer();
      if proc != None {
        abandoned := abandoned + {proc.value};
        proc := None;
      }
    }

    method Tick(passed: nat)
      modifies this`now
      ensures State() == Step(old(State()), Action.Tick(passed))
    {
      now := now + passed;
    }
  }
}
