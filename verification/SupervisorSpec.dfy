/** The supervisor of the desktop's own daemon: serialised starts, automatic restarts with a
    sliding-window limit, and stopping, as a state machine over every event. */
module SupervisorSpec {
  import opened Wrappers

  const RESTART_DELAYS_MS := [1_000, 5_000, 15_000]
  const RESTART_WINDOW_MS := 5 * 60_000
  const MAX_RESTARTS := 3

  /** Where the one start that is under way is suspended. */
  datatype Starting = NotStarting | Probing | Launching(id: nat)

  /** A stop that waits for its child, and whether a restart goes on when it succeeds. */
  datatype Stopping = Stopping(id: nat, restarts: bool)

  /** The supervisor, the timers the platform still has armed (with the time they are due),
      the children it ever spawned, and a log of its automatic restarts since the last
      restart a user asked for. The exit of a child is expected once a stop or a kill has
      asked for it; a child is abandoned once it is killed or released. `resuming` counts the
      restarts whose stop has succeeded and that have not gone on yet. */
  datatype Supervisor = Supervisor(
    proc: Option<nat>, starting: bool, stopping: bool, disposed: bool,
    restartTimes: seq<int>, restartTimer: Option<nat>, start: Starting,
    stops: multiset<Stopping>, resuming: nat,
    now: int, armed: map<nat, int>, nextTimer: nat,
    spawned: nat, alive: set<nat>, expecting: set<nat>, abandoned: set<nat>, scheduled: seq<int>)

  const FRESH := Supervisor(None, false, false, false, [], None, NotStarting, multiset{}, 0,
    0, map[], 0, 0, {}, {}, {}, [])

  // ---------- starting

  function Started(s: Supervisor): Supervisor {
    if s.disposed || s.start != NotStarting || s.proc != None then s else s.(start := Probing)
  }

  /** The probe answers; it `spawns` when nothing is reachable and a launch is possible. */
  function ProbeReturned(s: Supervisor, spawns: bool): Supervisor {
    if s.start != Probing then s
    else if !spawns then s.(start := NotStarting)
    else s.(proc := Some(s.spawned), starting := true, stopping := false, start := Launching(s.spawned),
            spawned := s.spawned + 1, alive := s.alive + {s.spawned})
  }

  function LaunchReturned(s: Supervisor, ready: bool): Supervisor {
    if !s.start.Launching? then s
    else if ready then s.(start := NotStarting, starting := false)
    else
      var id := s.start.id;
      s.(start := NotStarting, starting := false, proc := if s.proc == Some(id) then None else s.proc,
         expecting := s.expecting + {id}, abandoned := s.abandoned + {id})
  }

  // ---------- crashing

  /** The times that still lie in the window. */
  function Recent(times: seq<int>, now: int): seq<int> {
    if times == [] then []
    else (if now - times[0] < RESTART_WINDOW_MS then [times[0]] else []) + Recent(times[1..], now)
  }

  predicate Accepts(s: Supervisor) {
    |Recent(s.restartTimes, s.now)| < MAX_RESTARTS
  }

  function Scheduled(s: Supervisor): Supervisor {
    var recent := Recent(s.restartTimes, s.now);
    if |recent| >= MAX_RESTARTS then s.(restartTimes := recent)
    else
      s.(restartTimes := recent + [s.now], restartTimer := Some(s.nextTimer), nextTimer := s.nextTimer + 1,
         armed := s.armed[s.nextTimer := s.now + RESTART_DELAYS_MS[|recent|]],
         scheduled := s.scheduled + [s.now])
  }

  /** Whether the exit of a child counts as a crash that asks for a restart. */
  predicate Crashes(s: Supervisor, id: nat, clean: bool) {
    && id in s.alive && s.proc == Some(id) && id !in s.expecting
    && !s.starting && !s.stopping && !s.disposed && !clean
  }

  function Exited(s: Supervisor, id: nat, clean: bool): Supervisor {
    var gone := s.(alive := s.alive - {id});
    if id !in s.alive || s.proc != Some(id) then gone
    else if Crashes(s, id, clean) then Scheduled(gone.(proc := None))
    else gone.(proc := None)
  }

  function TimerFired(s: Supervisor, timer: nat): Supervisor {
    if timer !in s.armed || s.armed[timer] > s.now then s
    else Started(s.(armed := s.armed - {timer}, restartTimer := None))
  }

  // ---------- stopping

  function TimerCleared(s: Supervisor): Supervisor {
    if s.restartTimer == None then s
    else s.(armed := s.armed - {s.restartTimer.value}, restartTimer := None)
  }

  /** A stop, or the stop that a restart begins with. */
  function StopBegun(s: Supervisor, restarts: bool): Supervisor {
    var c := TimerCleared(s);
    if c.proc == None then (if restarts then c.(resuming := c.resuming + 1) else c)
    else
      c.(stopping := true, stops := c.stops + multiset{Stopping(c.proc.value, restarts)},
         expecting := c.expecting + {c.proc.value})
  }

  /** A stop whose child did not exit fails, and its restart with it. */
  function StopEnded(s: Supervisor, stop: Stopping, exited: bool): Supervisor {
    if stop !in s.stops then s
    else
      var r := s.(stops := s.stops - multiset{stop}, stopping := false);
      if !exited then r
      else
        r.(starting := false, proc := if r.proc == Some(stop.id) then None else r.proc,
           alive := r.alive - {stop.id}, resuming := r.resuming + if stop.restarts then 1 else 0)
  }

  /** A restart goes on behind its stop. */
  function RestartResumed(s: Supervisor): Supervisor {
    if s.resuming == 0 then s else Started(s.(resuming := s.resuming - 1, restartTimes := [], scheduled := []))
  }

  function Disposed(s: Supervisor): Supervisor {
    var c := TimerCleared(s.(disposed := true));
    if c.proc == None then c else c.(proc := None, abandoned := c.abandoned + {c.proc.value})
  }

  // ---------- everything that can happen

  datatype Action =
    | Tick(passed: nat)
    | Start
    | ProbeReturns(spawns: bool)
    | LaunchReturns(ready: bool)
    | Exits(id: nat, clean: bool)
    | TimerFires(timer: nat)
    | StopBegins
    | RestartBegins
    | StopEnds(stop: Stopping, exited: bool)
    | RestartResumes
    | Dispose

  function Step(s: Supervisor, a: Action): Supervisor {
    match a
    case Tick(passed) => s.(now := s.now + passed)
    case Start => Started(s)
    case ProbeReturns(spawns) => ProbeReturned(s, spawns)
    case LaunchReturns(ready) => LaunchReturned(s, ready)
    case Exits(id, clean) => Exited(s, id, clean)
    case TimerFires(timer) => TimerFired(s, timer)
    case StopBegins => StopBegun(s, false)
    case RestartBegins => StopBegun(s, true)
    case StopEnds(stop, exited) => StopEnded(s, stop, exited)
    case RestartResumes => RestartResumed(s)
    case Dispose => Disposed(s)
  }

  function Run(s: Supervisor, actions: seq<Action>): Supervisor
    decreases |actions|
  {
    if actions == [] then s else Run(Step(s, actions[0]), actions[1..])
  }

  // ---------- the sliding window

  predicate Sorted(times: seq<int>) {
    forall i, j :: 0 <= i < j < |times| ==> times[i] <= times[j]
  }

  /** The pruned list is what is left of the log once old enough entries are dropped, and
      four restarts never fall into one window. */
  ghost predicate Limited(log: seq<int>, kept: seq<int>, now: int) {
    && Sorted(log)
    && (forall i :: 0 <= i < |log| ==> log[i] <= now)
    && DropsOld(log, kept, now)
    && Spaced(log)
  }

  ghost predicate Spaced(log: seq<int>) {
    forall i, j :: 0 <= i && j == i + MAX_RESTARTS < |log| ==> log[j] - log[i] >= RESTART_WINDOW_MS
  }

  /** Filtering a sorted list by age drops a prefix. */
  ghost predicate DropsOld(times: seq<int>, kept: seq<int>, now: int) {
    && |kept| <= |times| && kept == times[|times| - |kept|..]
    && (forall i :: 0 <= i < |times| - |kept| ==> now - times[i] >= RESTART_WINDOW_MS)
  }

  lemma {:induction false} RecentIsSuffix(times: seq<int>, now: int)
    requires Sorted(times)
    ensures DropsOld(times, Recent(times, now), now)
  {
    if times == [] {
    } else if now - times[0] < RESTART_WINDOW_MS {
      AllRecent(times, now);
    } else {
      RecentIsSuffix(times[1..], now);
      OneMoreOld(times, Recent(times[1..], now), now);
    }
  }

  lemma OneMoreOld(times: seq<int>, kept: seq<int>, now: int)
    requires times != [] && now - times[0] >= RESTART_WINDOW_MS && DropsOld(times[1..], kept, now)
    ensures DropsOld(times, kept, now)
  {
    var k := |times| - |kept|;
    forall i | 0 <= i < k ensures now - times[i] >= RESTART_WINDOW_MS {
      if i > 0 { assert times[i] == times[1..][i - 1]; }
    }
  }

  lemma {:induction false} AllRecent(times: seq<int>, now: int)
    requires forall i :: 0 <= i < |times| ==> now - times[i] < RESTART_WINDOW_MS
    ensures Recent(times, now) == times
  {
    if times != [] { AllRecent(times[1..], now); }
  }

  lemma {:induction false} RecentSkipsOld(aged: seq<int>, times: seq<int>, now: int)
    requires forall i :: 0 <= i < |aged| ==> now - aged[i] >= RESTART_WINDOW_MS
    ensures Recent(aged + times, now) == Recent(times, now)
  {
    if aged == [] {
      assert aged + times == times;
    } else {
      assert (aged + times)[1..] == aged[1..] + times;
      RecentSkipsOld(aged[1..], times, now);
    }
  }

  /** Pruning forgets nothing that matters: a crash is counted against exactly the restarts
      of the last window, whenever earlier crashes pruned the list. */
  lemma PruningIsExact(log: seq<int>, kept: seq<int>, now: int)
    requires Limited(log, kept, now)
    ensures Recent(kept, now) == Recent(log, now)
  {
    var front := log[..|log| - |kept|];
    assert log == front + kept;
    RecentSkipsOld(front, kept, now);
  }

  lemma DropsOldTwice(log: seq<int>, kept: seq<int>, fewer: seq<int>, now: int)
    requires DropsOld(log, kept, now) && DropsOld(kept, fewer, now)
    ensures DropsOld(log, fewer, now)
  {
    var k, n := |log| - |kept|, |kept| - |fewer|;
    assert fewer == kept[n..] == log[k..][n..] == log[k + n..];
    forall i | 0 <= i < k + n ensures now - log[i] >= RESTART_WINDOW_MS {
      if i >= k { assert log[i] == kept[i - k]; }
    }
  }

  lemma KeptIsSorted(log: seq<int>, kept: seq<int>, now: int)
    requires Sorted(log) && DropsOld(log, kept, now)
    ensures Sorted(kept)
  {
    var k := |log| - |kept|;
    forall i, j | 0 <= i < j < |kept| ensures kept[i] <= kept[j] {
      assert kept[i] == log[k + i] && kept[j] == log[k + j];
    }
  }

  lemma PrunedStaysLimited(log: seq<int>, kept: seq<int>, now: int)
    requires Limited(log, kept, now)
    ensures Limited(log, Recent(kept, now), now)
  {
    KeptIsSorted(log, kept, now);
    RecentIsSuffix(kept, now);
    DropsOldTwice(log, kept, Recent(kept, now), now);
  }

  lemma OneMoreStaysLimited(log: seq<int>, kept: seq<int>, now: int)
    requires Limited(log, kept, now) && |kept| < MAX_RESTARTS
    ensures Limited(log + [now], kept + [now], now)
  {
    var more := log + [now];
    assert more[|more| - |kept| - 1..] == kept + [now];
    forall i, j | 0 <= i && j == i + MAX_RESTARTS < |more| ensures more[j] - more[i] >= RESTART_WINDOW_MS {
      if j < |log| { assert log[j] - log[i] >= RESTART_WINDOW_MS; }
    }
  }

  ghost predicate WithinLimit(s: Supervisor) {
    Limited(s.scheduled, s.restartTimes, s.now)
  }

  lemma ScheduledKeepsLimit(s: Supervisor)
    requires WithinLimit(s)
    ensures WithinLimit(Scheduled(s))
  {
    PrunedStaysLimited(s.scheduled, s.restartTimes, s.now);
    if Accepts(s) { OneMoreStaysLimited(s.scheduled, Recent(s.restartTimes, s.now), s.now); }
  }

  /** Starting, stopping and disposing leave the limiter alone. */
  ghost predicate SameLimiter(s: Supervisor, r: Supervisor) {
    r.scheduled == s.scheduled && r.restartTimes == s.restartTimes && r.now == s.now
  }

  lemma StartsLeaveLimiter(s: Supervisor, flag: bool)
    ensures SameLimiter(s, Started(s)) && SameLimiter(s, ProbeReturned(s, flag))
    ensures SameLimiter(s, LaunchReturned(s, flag))
  {
  }

  lemma TimerLeavesLimiter(s: Supervisor, timer: nat)
    ensures SameLimiter(s, TimerFired(s, timer)) && SameLimiter(s, TimerCleared(s))
  {
  }

  lemma StopsLeaveLimiter(s: Supervisor, stop: Stopping, flag: bool)
    ensures SameLimiter(s, StopBegun(s, flag)) && SameLimiter(s, StopEnded(s, stop, flag))
  {
    TimerLeavesLimiter(s, 0);
  }

  lemma DisposeLeavesLimiter(s: Supervisor)
    ensures SameLimiter(s, Disposed(s))
  {
    TimerLeavesLimiter(s.(disposed := true), 0);
  }

  lemma ExitedKeepsLimit(s: Supervisor, id: nat, clean: bool)
    requires WithinLimit(s)
    ensures WithinLimit(Exited(s, id, clean))
  {
    var gone := s.(alive := s.alive - {id}, proc := None);
    ScheduledKeepsLimit(gone);
  }

  lemma StepKeepsLimit(s: Supervisor, a: Action)
    requires WithinLimit(s)
    ensures WithinLimit(Step(s, a))
  {
    match a
    case Tick(passed) => assert Limited(s.scheduled, s.restartTimes, s.now + passed);
    case Exits(id, clean) => ExitedKeepsLimit(s, id, clean);
    case RestartResumes =>
      if s.resuming > 0 {
        assert Limited([], [], s.now);
        StartsLeaveLimiter(s.(resuming := s.resuming - 1, restartTimes := [], scheduled := []), true);
      }
    case Start => StartsLeaveLimiter(s, true);
    case ProbeReturns(spawns) => StartsLeaveLimiter(s, spawns);
    case LaunchReturns(ready) => StartsLeaveLimiter(s, ready);
    case TimerFires(timer) => TimerLeavesLimiter(s, timer);
    case StopBegins => StopsLeaveLimiter(s, Stopping(0, true), false);
    case RestartBegins => StopsLeaveLimiter(s, Stopping(0, true), true);
    case StopEnds(stop, exited) => StopsLeaveLimiter(s, stop, exited);
    case Dispose => DisposeLeavesLimiter(s);
  }

  lemma {:induction false} RunKeepsLimit(s: Supervisor, actions: seq<Action>)
    requires WithinLimit(s)
    ensures WithinLimit(Run(s, actions))
    decreases |actions|
  {
    if actions == [] {
    } else {
      StepKeepsLimit(s, actions[0]);
      RunKeepsLimit(Step(s, actions[0]), actions[1..]);
    }
  }

  /** How many of the times lie in the window that begins at `from`. */
  function CountIn(times: seq<int>, from: int): nat {
    if times == [] then 0
    else
      var last := times[|times| - 1];
      CountIn(times[..|times| - 1], from) + if from <= last < from + RESTART_WINDOW_MS then 1 else 0
  }

  lemma {:induction false} CountedFrom(times: seq<int>, from: int, k: nat)
    requires k <= |times| && forall i :: 0 <= i < k ==> times[i] < from
    ensures CountIn(times, from) <= |times| - k
    decreases |times|
  {
    if |times| > 0 {
      CountedFrom(times[..|times| - 1], from, if k < |times| then k else k - 1);
    }
  }

  lemma {:induction false} SpacedCount(times: seq<int>, from: int)
    requires Sorted(times) && Spaced(times)
    ensures CountIn(times, from) <= MAX_RESTARTS
    decreases |times|
  {
    if times != [] {
      var n := |times|;
      var last := times[n - 1];
      if from <= last < from + RESTART_WINDOW_MS {
        var k := if n > MAX_RESTARTS then n - MAX_RESTARTS else 0;
        forall i | 0 <= i < k ensures times[i] < from {
          assert times[i] <= times[k - 1] && times[n - 1] - times[k - 1] >= RESTART_WINDOW_MS;
        }
        CountedFrom(times, from, k);
      } else {
        SpacedCount(times[..n - 1], from);
      }
    }
  }

  /** Over every run, no window of five minutes holds more than three automatic restarts,
      counted since the user's last own restart. */
  lemma AtMostThreePerWindow(actions: seq<Action>, from: int)
    ensures CountIn(Run(FRESH, actions).scheduled, from) <= MAX_RESTARTS
  {
    RunKeepsLimit(FRESH, actions);
    SpacedCount(Run(FRESH, actions).scheduled, from);
  }

  /** And a crash is refused exactly when the window that ends now already holds three. */
  lemma RefusedExactlyWhenFull(actions: seq<Action>)
    ensures var s := Run(FRESH, actions); Accepts(s) <==> |Recent(s.scheduled, s.now)| < MAX_RESTARTS
  {
    RunKeepsLimit(FRESH, actions);
    var s := Run(FRESH, actions);
    PruningIsExact(s.scheduled, s.restartTimes, s.now);
  }

  /** Only an unexpected, unclean exit of the current child, after its start and outside any
      stop or disposal, schedules a restart. */
  lemma OnlyCrashesRestart(s: Supervisor, a: Action)
    ensures Step(s, a).nextTimer != s.nextTimer ==>
      (a.Exits? && !a.clean && a.id in s.alive && a.id !in s.expecting && s.proc == Some(a.id)
       && !s.starting && !s.stopping && !s.disposed)
  {
    match a
    case Start => StartsLeaveTimers(s, true);
    case ProbeReturns(spawns) => StartsLeaveTimers(s, spawns);
    case LaunchReturns(ready) => StartsLeaveTimers(s, ready);
    case TimerFires(timer) => StartsLeaveTimers(s.(armed := s.armed - {timer}, restartTimer := None), true);
    case RestartResumes => ResumedLeavesTimers(s);
    case _ =>
  }

  /** An accepted crash restarts after one, five or fifteen seconds, by how many restarts the
      window that ends now already holds, and its timer is the one the supervisor knows. */
  lemma DelayFollowsWindow(actions: seq<Action>)
    requires Accepts(Run(FRESH, actions))
    ensures var s := Run(FRESH, actions); var held := |Recent(s.scheduled, s.now)|;
      held < MAX_RESTARTS
      && Scheduled(s).restartTimer == Some(s.nextTimer) && s.nextTimer in Scheduled(s).armed
      && Scheduled(s).armed[s.nextTimer] == s.now + (if held == 0 then 1_000 else if held == 1 then 5_000 else 15_000)
  {
    RefusedExactlyWhenFull(actions);
    var s := Run(FRESH, actions);
    RunKeepsLimit(FRESH, actions);
    PruningIsExact(s.scheduled, s.restartTimes, s.now);
  }

  // ---------- one child at a time

  ghost predicate OneChild(s: Supervisor) {
    && (s.start == Probing ==> s.proc == None)
    && (forall id :: id in s.alive && id !in s.abandoned ==> s.proc == Some(id))
    && (s.proc.Some? ==> s.proc.value in s.alive && s.proc.value !in s.abandoned)
    && (forall id :: id in s.alive || id in s.abandoned ==> id < s.spawned)
    && (s.start.Launching? ==> s.start.id < s.spawned)
  }

  lemma StartsKeepOneChild(s: Supervisor, flag: bool)
    requires OneChild(s)
    ensures OneChild(Started(s)) && OneChild(ProbeReturned(s, flag)) && OneChild(LaunchReturned(s, flag))
  {
  }

  lemma ExitKeepsOneChild(s: Supervisor, id: nat, clean: bool)
    requires OneChild(s)
    ensures OneChild(Exited(s, id, clean))
  {
  }

  lemma StopBegunKeepsOneChild(s: Supervisor, restarts: bool)
    requires OneChild(s)
    ensures OneChild(StopBegun(s, restarts))
  {
    assert OneChild(TimerCleared(s));
  }

  lemma StopEndedKeepsOneChild(s: Supervisor, stop: Stopping, exited: bool)
    requires OneChild(s)
    ensures OneChild(StopEnded(s, stop, exited))
  {
  }

  lemma DisposedKeepsOneChild(s: Supervisor)
    requires OneChild(s)
    ensures OneChild(Disposed(s))
  {
    assert OneChild(TimerCleared(s.(disposed := true)));
  }

  lemma StepKeepsOneChild(s: Supervisor, a: Action)
    requires OneChild(s)
    ensures OneChild(Step(s, a))
  {
    match a
    case Tick(passed) => assert OneChild(s.(now := s.now + passed));
    case Start => StartsKeepOneChild(s, true);
    case ProbeReturns(spawns) => StartsKeepOneChild(s, spawns);
    case LaunchReturns(ready) => StartsKeepOneChild(s, ready);
    case Exits(id, clean) => ExitKeepsOneChild(s, id, clean);
    case TimerFires(timer) => StartsKeepOneChild(s.(armed := s.armed - {timer}, restartTimer := None), true);
    case StopBegins => StopBegunKeepsOneChild(s, false);
    case RestartBegins => StopBegunKeepsOneChild(s, true);
    case StopEnds(stop, exited) => StopEndedKeepsOneChild(s, stop, exited);
    case RestartResumes =>
      if s.resuming > 0 {
        StartsKeepOneChild(s.(resuming := s.resuming - 1, restartTimes := [], scheduled := []), true);
      }
    case Dispose => DisposedKeepsOneChild(s);
  }

  /** Over every run, at most one child that was not killed or released is alive, and it is
      the supervisor's own: starts that overlap never spawn two. */
  lemma {:induction false} EveryRunHasOneChild(s: Supervisor, actions: seq<Action>)
    requires OneChild(s)
    ensures OneChild(Run(s, actions))
    decreases |actions|
  {
    if actions == [] {
    } else {
      StepKeepsOneChild(s, actions[0]);
      EveryRunHasOneChild(Step(s, actions[0]), actions[1..]);
    }
  }

  // ---------- what stopping leaves behind

  /** A timer is armed that the supervisor no longer knows. */
  ghost predicate Leaked(s: Supervisor) {
    exists t :: t in s.armed && s.restartTimer != Some(t)
  }

  ghost predicate TimersKnown(s: Supervisor) {
    && (s.restartTimer.Some? ==> s.restartTimer.value in s.armed)
    && (forall t :: t in s.armed ==> t < s.nextTimer)
  }

  lemma ScheduledKeepsTimers(s: Supervisor)
    requires TimersKnown(s)
    ensures TimersKnown(Scheduled(s))
  {
  }

  ghost predicate SameTimers(s: Supervisor, r: Supervisor) {
    r.restartTimer == s.restartTimer && r.armed == s.armed && r.nextTimer == s.nextTimer
  }

  lemma StartsLeaveTimers(s: Supervisor, flag: bool)
    ensures SameTimers(s, Started(s)) && SameTimers(s, ProbeReturned(s, flag)) && SameTimers(s, LaunchReturned(s, flag))
  {
  }

  lemma ClearedKeepsTimers(s: Supervisor)
    requires TimersKnown(s)
    ensures TimersKnown(TimerCleared(s))
    ensures SameTimers(TimerCleared(s), StopBegun(s, true)) && SameTimers(TimerCleared(s), StopBegun(s, false))
  {
  }

  lemma ResumedLeavesTimers(s: Supervisor)
    ensures SameTimers(s, RestartResumed(s))
  {
    if s.resuming > 0 {
      StartsLeaveTimers(s.(resuming := s.resuming - 1, restartTimes := [], scheduled := []), true);
    }
  }

  lemma ExitedKeepsTimers(s: Supervisor, id: nat, clean: bool)
    requires TimersKnown(s)
    ensures TimersKnown(Exited(s, id, clean))
  {
    ScheduledKeepsTimers(s.(alive := s.alive - {id}, proc := None));
  }

  lemma TimerFiredKeepsTimers(s: Supervisor, timer: nat)
    requires TimersKnown(s)
    ensures TimersKnown(TimerFired(s, timer))
  {
    var r := s.(armed := s.armed - {timer}, restartTimer := None);
    assert TimersKnown(r);
    StartsLeaveTimers(r, true);
  }

  lemma StepKeepsTimers(s: Supervisor, a: Action)
    requires TimersKnown(s)
    ensures TimersKnown(Step(s, a))
  {
    match a
    case Tick(passed) => assert SameTimers(s, Step(s, a));
    case Start => StartsLeaveTimers(s, true);
    case ProbeReturns(spawns) => StartsLeaveTimers(s, spawns);
    case LaunchReturns(ready) => StartsLeaveTimers(s, ready);
    case Exits(id, clean) => ExitedKeepsTimers(s, id, clean);
    case TimerFires(timer) => TimerFiredKeepsTimers(s, timer);
    case StopBegins => ClearedKeepsTimers(s);
    case RestartBegins => ClearedKeepsTimers(s);
    case StopEnds(stop, exited) => assert SameTimers(s, StopEnded(s, stop, exited));
    case RestartResumes => ResumedLeavesTimers(s);
    case Dispose => ClearedKeepsTimers(s.(disposed := true));
  }

  lemma {:induction false} RunKeepsTimers(s: Supervisor, actions: seq<Action>)
    requires TimersKnown(s)
    ensures TimersKnown(Run(s, actions))
    decreases |actions|
  {
    if actions == [] {
    } else {
      StepKeepsTimers(s, actions[0]);
      RunKeepsTimers(Step(s, actions[0]), actions[1..]);
    }
  }

  /** A crash leaks exactly when it is accepted while an earlier restart is still waiting. */
  lemma LeaksExactlyWhen(s: Supervisor)
    requires TimersKnown(s) && !Leaked(s)
    ensures Leaked(Scheduled(s)) <==> Accepts(s) && s.restartTimer.Some?
  {
    if Accepts(s) && s.restartTimer.Some? {
      assert s.restartTimer.value in Scheduled(s).armed;
    }
  }

  /** Every crash that the run accepts comes while no restart is waiting. */
  predicate NoOverlap(s: Supervisor, actions: seq<Action>)
    decreases |actions|
  {
    actions == [] ||
    (NoOverlapNow(s, actions[0]) && NoOverlap(Step(s, actions[0]), actions[1..]))
  }

  predicate NoOverlapNow(s: Supervisor, a: Action) {
    a.Exits? && Crashes(s, a.id, a.clean) && Accepts(s) ==> s.restartTimer == None
  }

  lemma StepLeaksExactlyWhen(s: Supervisor, a: Action)
    requires TimersKnown(s) && !Leaked(s)
    ensures Leaked(Step(s, a)) <==> !NoOverlapNow(s, a)
  {
    match a
    case Exits(id, clean) => LeaksExactlyWhen(s.(alive := s.alive - {id}, proc := None));
    case RestartResumes => ResumedLeavesTimers(s);
    case _ =>
  }

  /** A timer is lost at some point of the run. */
  ghost predicate LeaksSomewhere(s: Supervisor, actions: seq<Action>) {
    exists k :: 0 <= k <= |actions| && Leaked(Run(s, actions[..k]))
  }

  lemma LeaksHereOrLater(s: Supervisor, actions: seq<Action>)
    requires actions != []
    ensures LeaksSomewhere(s, actions) <==> Leaked(s) || LeaksSomewhere(Step(s, actions[0]), actions[1..])
  {
    assert actions[..0] == [];
    forall k | 0 < k <= |actions| ensures Run(s, actions[..k]) == Run(Step(s, actions[0]), actions[1..][..k - 1]) {
      assert actions[..k][1..] == actions[1..][..k - 1];
    }
    if k :| 0 <= k <= |actions[1..]| && Leaked(Run(Step(s, actions[0]), actions[1..][..k])) {
      assert Leaked(Run(s, actions[..k + 1]));
    }
    if Leaked(s) { assert Leaked(Run(s, actions[..0])); }
  }

  /** A run that begins with every armed timer known loses one at some point exactly when some
      crash is accepted while an earlier restart is still waiting. */
  lemma {:induction false} LeaksSomewhereExactlyWhen(s: Supervisor, actions: seq<Action>)
    requires TimersKnown(s) && !Leaked(s)
    ensures LeaksSomewhere(s, actions) <==> !NoOverlap(s, actions)
    decreases |actions|
  {
    if actions == [] {
      assert forall k :: 0 <= k <= |actions| ==> actions[..k] == [];
    } else {
      var next, rest := Step(s, actions[0]), actions[1..];
      LeaksHereOrLater(s, actions);
      StepKeepsTimers(s, actions[0]);
      StepLeaksExactlyWhen(s, actions[0]);
      if Leaked(next) {
        assert rest[..0] == [];
        assert Leaked(Run(next, rest[..0]));
      } else {
        LeaksSomewhereExactlyWhen(next, rest);
      }
    }
  }

  /** Without such an overlap no timer is lost at the end either. */
  lemma NoLeakWithoutOverlap(s: Supervisor, actions: seq<Action>)
    requires TimersKnown(s) && !Leaked(s) && NoOverlap(s, actions)
    ensures TimersKnown(Run(s, actions)) && !Leaked(Run(s, actions))
  {
    RunKeepsTimers(s, actions);
    LeaksSomewhereExactlyWhen(s, actions);
    assert actions[..|actions|] == actions;
  }

  /** Everything but a start or restart that somebody asks for now. */
  predicate Spontaneous(a: Action) {
    !a.Start? && !a.RestartBegins?
  }

  ghost predicate MaySpawn(s: Supervisor, actions: seq<Action>) {
    (forall i :: 0 <= i < |actions| ==> Spontaneous(actions[i])) && Run(s, actions).spawned > s.spawned
  }

  /** A daemon can be spawned without anybody asking for it. */
  ghost predicate CanSpawn(s: Supervisor) {
    exists actions :: MaySpawn(s, actions)
  }

  /** A restart waits for its stop, or has not gone on behind it yet. */
  ghost predicate RestartPending(s: Supervisor) {
    s.resuming > 0 || exists id :: Stopping(id, true) in s.stops
  }

  /** Nothing is left that could spawn a daemon by itself; at most a child is there whose
      exit is expected. */
  ghost predicate Settling(s: Supervisor) {
    && s.start != Probing
    && (s.disposed
        || (s.armed == map[] && !RestartPending(s) && (s.proc.Some? ==> s.proc.value in s.expecting)))
  }

  lemma SettlingStarts(s: Supervisor, flag: bool, timer: nat)
    requires Settling(s)
    ensures Settling(ProbeReturned(s, flag)) && ProbeReturned(s, flag).spawned == s.spawned
    ensures Settling(LaunchReturned(s, flag)) && LaunchReturned(s, flag).spawned == s.spawned
    ensures Settling(TimerFired(s, timer)) && TimerFired(s, timer).spawned == s.spawned
  {
  }

  lemma SettlingExit(s: Supervisor, id: nat, clean: bool)
    requires Settling(s)
    ensures Settling(Exited(s, id, clean)) && Exited(s, id, clean).spawned == s.spawned
  {
    assert !Crashes(s, id, clean);
  }

  lemma SettlingCleared(s: Supervisor)
    requires Settling(s)
    ensures Settling(TimerCleared(s)) && TimerCleared(s).spawned == s.spawned
  {
    assert s.armed == map[] ==> TimerCleared(s).armed == map[];
  }

  lemma SettlingStops(s: Supervisor, stop: Stopping, exited: bool)
    requires Settling(s)
    ensures Settling(StopBegun(s, false)) && StopBegun(s, false).spawned == s.spawned
    ensures Settling(StopEnded(s, stop, exited)) && StopEnded(s, stop, exited).spawned == s.spawned
  {
    SettlingCleared(s);
    assert !s.disposed && stop in s.stops ==> !Stopping(stop.id, stop.restarts).restarts;
  }

  lemma SettlingResumes(s: Supervisor)
    requires Settling(s)
    ensures Settling(RestartResumed(s)) && RestartResumed(s).spawned == s.spawned
  {
  }

  lemma SettlingStep(s: Supervisor, a: Action)
    requires Settling(s) && Spontaneous(a)
    ensures Settling(Step(s, a)) && Step(s, a).spawned == s.spawned
  {
    match a
    case Tick(passed) => assert Settling(s.(now := s.now + passed));
    case ProbeReturns(spawns) => SettlingStarts(s, spawns, 0);
    case LaunchReturns(ready) => SettlingStarts(s, ready, 0);
    case Exits(id, clean) => SettlingExit(s, id, clean);
    case TimerFires(timer) => SettlingStarts(s, true, timer);
    case StopBegins => SettlingStops(s, Stopping(0, false), true);
    case StopEnds(stop, exited) => SettlingStops(s, stop, exited);
    case RestartResumes => SettlingResumes(s);
    case Dispose => SettlingCleared(s.(disposed := true));
  }

  lemma {:induction false} SettlingNeverSpawns(s: Supervisor, actions: seq<Action>)
    requires Settling(s) && forall i :: 0 <= i < |actions| ==> Spontaneous(actions[i])
    ensures Run(s, actions).spawned == s.spawned
    decreases |actions|
  {
    if actions != [] {
      assert Spontaneous(actions[0]);
      SettlingStep(s, actions[0]);
      SettlingNeverSpawns(Step(s, actions[0]), actions[1..]);
    }
  }

  lemma EarlierSpawns(s: Supervisor, a: Action)
    requires Spontaneous(a) && Step(s, a).spawned == s.spawned && CanSpawn(Step(s, a))
    ensures CanSpawn(s)
  {
    var actions :| MaySpawn(Step(s, a), actions);
    var all := [a] + actions;
    assert all[1..] == actions && Run(s, all) == Run(Step(s, a), all[1..]);
    assert MaySpawn(s, all);
  }

  lemma ProbingSpawns(s: Supervisor)
    requires s.start == Probing
    ensures CanSpawn(s)
  {
    var a := ProbeReturns(true);
    assert Run(s, [a]) == Run(Step(s, a), [a][1..]) && [a][1..] == [];
    assert MaySpawn(s, [a]);
  }

  /** An armed timer starts a daemon once nothing else is there. */
  lemma DueTimerSpawns(s: Supervisor, timer: nat)
    requires timer in s.armed && s.armed[timer] <= s.now && s.proc == None && s.start == NotStarting && !s.disposed
    ensures CanSpawn(s)
  {
    ProbingSpawns(Step(s, TimerFires(timer)));
    EarlierSpawns(s, TimerFires(timer));
  }

  lemma ArmedTimerSpawns(s: Supervisor, timer: nat)
    requires timer in s.armed && s.proc == None && s.start != Probing && !s.disposed
    ensures CanSpawn(s)
  {
    var r := Step(s, LaunchReturns(true));
    var wait := if s.armed[timer] > s.now then s.armed[timer] - s.now else 0;
    DueTimerSpawns(Step(r, Tick(wait)), timer);
    EarlierSpawns(r, Tick(wait));
    EarlierSpawns(s, LaunchReturns(true));
  }

  /** A lost timer survives the stop, the wait for its child, and the child's exit. */
  lemma LostTimerSpawns(s: Supervisor, timer: nat)
    requires timer in s.armed && s.restartTimer != Some(timer) && s.start != Probing && !s.disposed
    ensures CanSpawn(Step(s, StopBegins))
  {
    var r := Step(s, StopBegins);
    if s.proc == None {
      ArmedTimerSpawns(r, timer);
    } else {
      var ends := StopEnds(Stopping(s.proc.value, false), true);
      assert Step(r, ends).proc == None && timer in Step(r, ends).armed;
      ArmedTimerSpawns(Step(r, ends), timer);
      EarlierSpawns(r, ends);
    }
  }

  /** A restart that may go on starts a daemon once nothing else is there. */
  lemma ResumingSpawns(s: Supervisor)
    requires s.resuming > 0 && s.proc == None && s.start != Probing && !s.disposed
    ensures CanSpawn(s)
  {
    var r := Step(s, LaunchReturns(true));
    ProbingSpawns(Step(r, RestartResumes));
    EarlierSpawns(r, RestartResumes);
    EarlierSpawns(s, LaunchReturns(true));
  }

  lemma PendingSpawns(s: Supervisor)
    requires RestartPending(s) && s.proc == None && s.start != Probing && !s.disposed
    ensures CanSpawn(s)
  {
    if s.resuming > 0 {
      ResumingSpawns(s);
    } else {
      var id :| Stopping(id, true) in s.stops;
      var ends := StopEnds(Stopping(id, true), true);
      ResumingSpawns(Step(s, ends));
      EarlierSpawns(s, ends);
    }
  }

  /** A stop cancels no restart: not one that waits for its own stop, nor one that is about
      to go on behind it. */
  lemma PendingRestartSpawns(s: Supervisor)
    requires RestartPending(s) && s.start != Probing && !s.disposed
    ensures CanSpawn(Step(s, StopBegins))
  {
    var r := Step(s, StopBegins);
    assert forall id :: Stopping(id, true) in s.stops ==> Stopping(id, true) in r.stops;
    if s.proc == None {
      PendingSpawns(r);
    } else {
      var mine := Stopping(s.proc.value, false);
      var q := Step(r, StopEnds(mine, true));
      assert forall id :: Stopping(id, true) in r.stops ==> Stopping(id, true) in q.stops;
      PendingSpawns(q);
      EarlierSpawns(r, StopEnds(mine, true));
    }
  }

  /** What lets a stop take effect: no start is still probing; and, unless the supervisor is
      disposed, no timer was lost and no restart is pending. */
  ghost predicate StopTakes(s: Supervisor) {
    s.start != Probing && (s.disposed || (!Leaked(s) && !RestartPending(s)))
  }

  lemma StopSettles(s: Supervisor)
    requires TimersKnown(s) && StopTakes(s)
    ensures Settling(Step(s, StopBegins))
  {
    if !s.disposed {
      assert forall t :: t in s.armed ==> s.restartTimer == Some(t);
      assert TimerCleared(s).armed.Keys == {};
    }
  }

  /** In every reachable state, with a child to wait for or without one: from the moment a
      stop begins nothing but a new request spawns a daemon, through the wait, a wait that
      fails, the child's exit and everything after it, exactly when the stop takes effect. */
  lemma StopStopsExactlyWhen(history: seq<Action>)
    ensures var s := Run(FRESH, history); !CanSpawn(Step(s, StopBegins)) <==> StopTakes(s)
  {
    var s := Run(FRESH, history);
    var r := Step(s, StopBegins);
    RunKeepsTimers(FRESH, history);
    if StopTakes(s) {
      StopSettles(s);
      forall actions ensures !MaySpawn(r, actions) {
        if forall i :: 0 <= i < |actions| ==> Spontaneous(actions[i]) { SettlingNeverSpawns(r, actions); }
      }
    } else if s.start == Probing {
      ProbingSpawns(r);
    } else if Leaked(s) {
      var t :| t in s.armed && s.restartTimer != Some(t);
      LostTimerSpawns(s, t);
    } else {
      PendingRestartSpawns(s);
    }
  }

  /** A user restarts the daemon, and stops it while the restart still waits for the child:
      once the child has exited, the restart starts the daemon again. */
  lemma RestartOutlivesStop()
    ensures var before := Run(FRESH, [Start, ProbeReturns(true), LaunchReturns(true), RestartBegins]);
      before.start == NotStarting && !Leaked(before) && RestartPending(before)
      && CanSpawn(Step(before, StopBegins))
  {
    RunOfFour(FRESH, Start, ProbeReturns(true), LaunchReturns(true), RestartBegins);
    StartedAndReady(FRESH);
    var s := Step(FRESH.(proc := Some(0), spawned := 1, alive := {0}), RestartBegins);
    assert FRESH.alive + {0} == {0} && Stopping(0, true) in s.stops;
    PendingRestartSpawns(s);
  }

  /** A user starts the daemon while its restart is waiting, it crashes again, and the user
      stops it: the first timer is still armed and starts it once more. */
  lemma StoppedDaemonComesBack()
    ensures var before := Run(FRESH, CRASH_TWICE);
      before.proc == None && before.start == NotStarting && Leaked(before)
      && CanSpawn(Step(before, StopBegins))
  {
    var s := CrashedTwice();
    assert 0 in s.armed && s.restartTimer == Some(1);
    LostTimerSpawns(s, 0);
  }

  const CRASH_TWICE: seq<Action> := [
    Start, ProbeReturns(true), LaunchReturns(true), Exits(0, false),
    Start, ProbeReturns(true), LaunchReturns(true), Exits(1, false)]

  lemma StartedAndReady(s: Supervisor)
    requires s.proc == None && s.start == NotStarting && !s.disposed
    ensures Step(Step(Step(s, Start), ProbeReturns(true)), LaunchReturns(true))
         == s.(proc := Some(s.spawned), starting := false, stopping := false, spawned := s.spawned + 1,
               alive := s.alive + {s.spawned})
  {
  }

  /** The supervisor after its first child was started and crashed. */
  function CrashedOnce(): Supervisor {
    FRESH.(restartTimes := [0], restartTimer := Some(0), nextTimer := 1, armed := map[0 := 1_000], spawned := 1,
           scheduled := [0])
  }

  lemma FirstCrash()
    ensures Run(FRESH, CRASH_TWICE[..4]) == CrashedOnce()
  {
    assert CRASH_TWICE[..4] == [Start, ProbeReturns(true), LaunchReturns(true), Exits(0, false)];
    RunOfFour(FRESH, Start, ProbeReturns(true), LaunchReturns(true), Exits(0, false));
    StartedAndReady(FRESH);
    var r := Step(FRESH.(proc := Some(0), spawned := 1, alive := {0}), Exits(0, false));
    assert r.alive == {} && r.armed == map[0 := 1_000] && r.scheduled == [0] && r.restartTimes == [0];
  }

  lemma SecondCrash() returns (s: Supervisor)
    ensures s == Run(CrashedOnce(), CRASH_TWICE[4..])
    ensures s.proc == None && s.start == NotStarting && !s.disposed
    ensures s.armed == map[0 := 1_000, 1 := 5_000] && s.restartTimer == Some(1)
  {
    assert CRASH_TWICE[4..] == [Start, ProbeReturns(true), LaunchReturns(true), Exits(1, false)];
    RunOfFour(CrashedOnce(), Start, ProbeReturns(true), LaunchReturns(true), Exits(1, false));
    StartedAndReady(CrashedOnce());
    assert Recent([0], 0) == [0];
    s := Step(CrashedOnce().(proc := Some(1), spawned := 2, alive := {1}), Exits(1, false));
    assert CrashedOnce().alive + {1} == {1};
  }

  lemma CrashedTwice() returns (s: Supervisor)
    ensures s == Run(FRESH, CRASH_TWICE)
    ensures s.proc == None && s.start == NotStarting && !s.disposed
    ensures s.armed == map[0 := 1_000, 1 := 5_000] && s.restartTimer == Some(1)
  {
    assert CRASH_TWICE == CRASH_TWICE[..4] + CRASH_TWICE[4..];
    RunInParts(FRESH, CRASH_TWICE[..4], CRASH_TWICE[4..]);
    FirstCrash();
    s := SecondCrash();
  }

  lemma RunOfThree(s: Supervisor, a: Action, b: Action, c: Action)
    ensures Run(s, [a, b, c]) == Step(Step(Step(s, a), b), c)
  {
    assert [a, b, c][1..] == [b, c] && [b, c][1..] == [c] && [c][1..] == [];
    var r := Step(s, a);
    assert Run(r, [b, c]) == Run(Step(r, b), [c]);
  }

  lemma RunOfFour(s: Supervisor, a: Action, b: Action, c: Action, d: Action)
    ensures Run(s, [a, b, c, d]) == Step(Step(Step(Step(s, a), b), c), d)
  {
    assert [a, b, c, d][1..] == [b, c, d];
    RunOfThree(Step(s, a), b, c, d);
  }

  lemma {:induction false} RunInParts(s: Supervisor, first: seq<Action>, second: seq<Action>)
    ensures Run(s, first + second) == Run(Run(s, first), second)
    decreases |first|
  {
    if first == [] {
      assert first + second == second;
    } else {
      assert (first + second)[1..] == first[1..] + second;
      RunInParts(Step(s, first[0]), first[1..], second);
    }
  }
}
