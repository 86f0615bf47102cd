/** What starts, crashes, stops and restarts come to, from every state a supervisor can reach. */
module SupervisorRuns {
  import opened SupervisorSpec
  import opened Wrappers

  /** The daemon is ready: its start is over, and nothing has asked for its exit. */
  ghost predicate Up(s: Supervisor, id: nat) {
    && s.proc == Some(id) && id in s.alive && id !in s.expecting && id !in s.abandoned
    && s.start == NotStarting && !s.starting && !s.stopping && !s.disposed
  }

  /** There is no child, and none is on its way by a start. */
  ghost predicate Down(s: Supervisor) {
    s.proc == None && s.start == NotStarting && !s.disposed
  }

  /** Only children that were spawned are known, and a start that is over left no flag. */
  ghost predicate Tidy(s: Supervisor) {
    && OneChild(s) && (forall id :: id in s.expecting ==> id < s.spawned)
    && (s.starting ==> s.start.Launching?)
    && (forall t :: t in s.armed ==> t < s.nextTimer) && (s.restartTimer.Some? ==> s.restartTimer.value < s.nextTimer)
  }

  lemma StartsStayTidy(s: Supervisor, flag: bool)
    requires Tidy(s)
    ensures Tidy(Started(s)) && Tidy(ProbeReturned(s, flag)) && Tidy(LaunchReturned(s, flag))
  {
    StartsKeepOneChild(s, flag);
  }

  lemma ExitStaysTidy(s: Supervisor, id: nat, clean: bool)
    requires Tidy(s)
    ensures Tidy(Exited(s, id, clean))
  {
    ExitKeepsOneChild(s, id, clean);
  }

  lemma StopStaysTidy(s: Supervisor, restarts: bool)
    requires Tidy(s)
    ensures Tidy(StopBegun(s, restarts))
  {
    StopBegunKeepsOneChild(s, restarts);
  }

  lemma StepStaysTidy(s: Supervisor, a: Action)
    requires Tidy(s)
    ensures Tidy(Step(s, a))
  {
    StepKeepsOneChild(s, a);
    match a
    case Start => StartsStayTidy(s, true);
    case ProbeReturns(spawns) => StartsStayTidy(s, spawns);
    case LaunchReturns(ready) => StartsStayTidy(s, ready);
    case Exits(id, clean) => ExitStaysTidy(s, id, clean);
    case StopBegins => StopStaysTidy(s, false);
    case RestartBegins => StopStaysTidy(s, true);
    case _ =>
  }

  lemma {:induction false} RunStaysTidy(s: Supervisor, actions: seq<Action>)
    requires Tidy(s)
    ensures Tidy(Run(s, actions))
    decreases |actions|
  {
    if actions != [] {
      StepStaysTidy(s, actions[0]);
      RunStaysTidy(Step(s, actions[0]), actions[1..]);
    }
  }

  /** Every reachable state is tidy. */
  lemma ReachedIsTidy(history: seq<Action>)
    ensures Tidy(Run(FRESH, history))
  {
    RunStaysTidy(FRESH, history);
  }

  // ---------- starting

  /** A start without a child brings a new one up, and touches neither timers nor limiter. */
  lemma StartBringsUp(s: Supervisor)
    requires Tidy(s) && Down(s)
    ensures var r := Run(s, [Start, ProbeReturns(true), LaunchReturns(true)]);
      && Up(r, s.spawned) && r.spawned == s.spawned + 1 && SameTimers(s, r) && SameLimiter(s, r)
      && r.alive == s.alive + {s.spawned} && r.stops == s.stops && r.resuming == s.resuming
  {
    RunOfThree(s, Start, ProbeReturns(true), LaunchReturns(true));
    StartedAndReady(s);
  }

  /** A start that finds the daemon reachable, or nothing to launch, changes nothing. */
  lemma NothingToStart(s: Supervisor)
    requires Tidy(s) && Down(s)
    ensures Run(s, [Start, ProbeReturns(false)]) == s
  {
    RunOfTwo(s, Start, ProbeReturns(false));
  }

  /** A launch that fails gives its child up: it may end by itself, and asks for no restart. */
  lemma FailedLaunch(s: Supervisor, clean: bool)
    requires Tidy(s) && Down(s)
    ensures var r := Run(s, [Start, ProbeReturns(true), LaunchReturns(false)]); var id := s.spawned;
      && Down(r) && !r.starting && id in r.abandoned && id in r.expecting && r.spawned == s.spawned + 1
      && SameTimers(s, r) && SameLimiter(s, r)
      && Step(r, Exits(id, clean)) == r.(alive := r.alive - {id})
  {
    RunOfThree(s, Start, ProbeReturns(true), LaunchReturns(false));
  }

  /** A child that ends while it is launched restarts nothing either. */
  lemma ExitWhileLaunched(s: Supervisor, clean: bool, ready: bool)
    requires Tidy(s) && Down(s)
    ensures var r := Step(Step(Step(s, Start), ProbeReturns(true)), Exits(s.spawned, clean));
      && r.proc == None && s.spawned !in r.alive && SameTimers(s, r) && SameLimiter(s, r)
      && Down(Step(r, LaunchReturns(ready))) && SameTimers(s, Step(r, LaunchReturns(ready)))
  {
    assert s.alive + {s.spawned} - {s.spawned} == s.alive;
  }

  lemma RunOfTwo(s: Supervisor, a: Action, b: Action)
    ensures Run(s, [a, b]) == Step(Step(s, a), b)
  {
    assert [a, b][1..] == [b] && [b][1..] == [];
    assert Run(Step(s, a), [b]) == Run(Step(Step(s, a), b), []);
  }

  // ---------- crashing

  /** How long an accepted crash waits. */
  function Delay(s: Supervisor): int {
    var held := |Recent(s.restartTimes, s.now)|;
    if held == 0 then 1_000 else if held == 1 then 5_000 else 15_000
  }

  /** An accepted crash leaves no child but one more armed timer, which the supervisor knows;
      it fires when its delay has passed, and not before. */
  lemma CrashArms(s: Supervisor, id: nat, passed: nat)
    requires Tidy(s) && Up(s, id) && Accepts(s)
    ensures var r := Step(s, Exits(id, false)); var t := Step(r, Tick(passed));
      && Down(r) && id !in r.alive && r.restartTimer == Some(s.nextTimer)
      && r.armed == s.armed[s.nextTimer := s.now + Delay(s)] && r.scheduled == s.scheduled + [s.now]
      && t == r.(now := s.now + passed)
      && Step(t, TimerFires(s.nextTimer)) ==
           if passed < Delay(s) then t
           else t.(armed := t.armed - {s.nextTimer}, restartTimer := None, start := Probing)
  {
  }

  /** So the crashed daemon comes back as a new child. */
  lemma CrashComesBack(s: Supervisor, id: nat)
    requires Tidy(s) && Up(s, id) && Accepts(s)
    ensures var r := Step(Step(Step(s, Exits(id, false)), Tick(Delay(s))), TimerFires(s.nextTimer));
      Up(Step(Step(r, ProbeReturns(true)), LaunchReturns(true)), s.spawned)
  {
    CrashArms(s, id, Delay(s));
  }

  /** A crash the limiter refuses, a clean exit, and an exit that was asked for leave no child
      and arm nothing. */
  lemma ExitLeavesDown(s: Supervisor, id: nat, clean: bool)
    requires Tidy(s) && s.proc == Some(id) && s.start == NotStarting && !s.disposed
    requires clean || id in s.expecting || s.stopping || !Accepts(s)
    ensures var r := Step(s, Exits(id, clean));
      Down(r) && r.alive == s.alive - {id} && SameTimers(s, r) && r.scheduled == s.scheduled
  {
  }

  /** The exit of any other child is only noted. */
  lemma OtherExit(s: Supervisor, id: nat, clean: bool)
    requires s.proc != Some(id)
    ensures Step(s, Exits(id, clean)) == s.(alive := s.alive - {id})
  {
    assert id !in s.alive ==> s.alive - {id} == s.alive;
  }

  /** After every crash the record holds exactly the restarts of the window that ends now. */
  lemma RecordIsWindow(history: seq<Action>, id: nat)
    requires Up(Run(FRESH, history), id)
    ensures var s := Run(FRESH, history); var r := Step(s, Exits(id, false));
      r.restartTimes == Recent(s.scheduled, s.now) + (if Accepts(s) then [s.now] else [])
  {
    RunKeepsLimit(FRESH, history);
    var s := Run(FRESH, history);
    PruningIsExact(s.scheduled, s.restartTimes, s.now);
  }

  // ---------- stopping and restarting

  /** A stop that succeeds leaves no child and no known timer; one that fails leaves the child
      in place, and its later exit restarts nothing. */
  lemma StopBringsDown(s: Supervisor, id: nat, clean: bool)
    requires Tidy(s) && Up(s, id)
    ensures var b := Step(s, StopBegins); var mine := Stopping(id, false);
      var r, kept := Step(b, StopEnds(mine, true)), Step(b, StopEnds(mine, false));
      && mine in b.stops && b.stopping && b.restartTimer == None
      && b.armed == s.armed - (if s.restartTimer.Some? then {s.restartTimer.value} else {})
      && Down(r) && r.alive == s.alive - {id} && SameTimers(b, r) && r.stops == s.stops && !r.stopping
      && kept == b.(stops := s.stops, stopping := false) && kept.proc == Some(id)
      && SameTimers(b, Step(kept, Exits(id, clean))) && Down(Step(kept, Exits(id, clean)))
  {
    StopStaysTidy(s, false);
    var b := Step(s, StopBegins);
    assert b.stops == s.stops + multiset{Stopping(id, false)};
    assert b.stops - multiset{Stopping(id, false)} == s.stops;
  }

  /** A restart of a daemon that runs takes it down, and brings a new one up with an empty
      record of restarts; when its stop fails it goes no further. */
  lemma RestartBringsUp(s: Supervisor, id: nat)
    requires Tidy(s) && Up(s, id)
    ensures var b := Step(s, RestartBegins); var mine := Stopping(id, true);
      var e, kept := Step(b, StopEnds(mine, true)), Step(b, StopEnds(mine, false));
      var r := Step(Step(Step(e, RestartResumes), ProbeReturns(true)), LaunchReturns(true));
      && mine in b.stops && b.proc == Some(id) && b.resuming == s.resuming
      && Down(e) && e.resuming == s.resuming + 1 && e.stops == s.stops
      && Up(r, s.spawned) && id !in r.alive && r.resuming == s.resuming && r.restartTimes == [] == r.scheduled
      && kept.proc == Some(id) && kept.resuming == s.resuming && kept.stops == s.stops
  {
    StopStaysTidy(s, true);
    var b := Step(s, RestartBegins);
    assert b.stops - multiset{Stopping(id, true)} == s.stops;
    RestartGoesOn(Step(b, StopEnds(Stopping(id, true), true)));
  }

  lemma RestartGoesOn(e: Supervisor)
    requires Down(e) && e.resuming > 0 && !e.starting
    requires e.spawned !in e.expecting && e.spawned !in e.abandoned
    ensures var r := Step(Step(Step(e, RestartResumes), ProbeReturns(true)), LaunchReturns(true));
      && Up(r, e.spawned) && r.alive == e.alive + {e.spawned} && r.resuming == e.resuming - 1
      && r.restartTimes == [] == r.scheduled
  {
  }

  /** A restart without a child goes on at once. */
  lemma RestartFromDown(s: Supervisor)
    requires Tidy(s) && Down(s)
    ensures var b := Step(s, RestartBegins);
      var r := Step(Step(Step(b, RestartResumes), ProbeReturns(true)), LaunchReturns(true));
      && Up(r, s.spawned) && r.resuming == s.resuming && r.restartTimes == [] == r.scheduled
      && b.stops == s.stops && b.restartTimer == None
  {
    StopStaysTidy(s, true);
    RestartGoesOn(Step(s, RestartBegins));
  }

  // ---------- disposing

  /** Disposal lets the child go and clears the timer. */
  lemma DisposalLetsGo(s: Supervisor)
    requires Tidy(s)
    ensures var r := Step(s, Dispose);
      && r.disposed && r.proc == None && r.restartTimer == None && r.alive == s.alive
      && r.armed == s.armed - (if s.restartTimer.Some? then {s.restartTimer.value} else {})
      && r.abandoned == s.abandoned + (if s.proc.Some? then {s.proc.value} else {})
  {
  }

  ghost predicate StaysDisposed(s: Supervisor, r: Supervisor) {
    r.disposed && r.start != Probing && r.spawned == s.spawned
  }

  lemma DisposedStarts(s: Supervisor, flag: bool)
    requires s.disposed && s.start != Probing
    ensures StaysDisposed(s, Started(s)) && StaysDisposed(s, ProbeReturned(s, flag))
    ensures StaysDisposed(s, LaunchReturned(s, flag))
  {
  }

  lemma DisposedStops(s: Supervisor, stop: Stopping, flag: bool)
    requires s.disposed && s.start != Probing
    ensures StaysDisposed(s, StopBegun(s, flag)) && StaysDisposed(s, StopEnded(s, stop, flag))
  {
    assert StaysDisposed(s, TimerCleared(s));
  }

  lemma DisposedStep(s: Supervisor, a: Action)
    requires s.disposed && s.start != Probing
    ensures StaysDisposed(s, Step(s, a))
  {
    match a
    case Start => DisposedStarts(s, true);
    case ProbeReturns(spawns) => DisposedStarts(s, spawns);
    case LaunchReturns(ready) => DisposedStarts(s, ready);
    case TimerFires(timer) => DisposedStarts(s.(armed := s.armed - {timer}, restartTimer := None), true);
    case RestartResumes =>
      if s.resuming > 0 {
        DisposedStarts(s.(resuming := s.resuming - 1, restartTimes := [], scheduled := []), true);
      }
    case StopBegins => DisposedStops(s, Stopping(0, true), false);
    case RestartBegins => DisposedStops(s, Stopping(0, true), true);
    case StopEnds(stop, exited) => DisposedStops(s, stop, exited);
    case _ =>
  }

  /** A disposed supervisor spawns nothing again, whatever it is asked, unless a start was
      probing when it was disposed. */
  lemma {:induction false} DisposedNeverSpawns(s: Supervisor, actions: seq<Action>)
    requires s.disposed && s.start != Probing
    ensures Run(s, actions).spawned == s.spawned
    decreases |actions|
  {
    if actions != [] {
      DisposedStep(s, actions[0]);
      DisposedNeverSpawns(Step(s, actions[0]), actions[1..]);
    }
  }
}
