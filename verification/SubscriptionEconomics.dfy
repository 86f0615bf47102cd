/** Subscription economics of a coding plan: the worst multiplier of a horizon, found from a
    few sampled instants, and the efficiency score it gives. */
module SubscriptionEconomics {
  import opened Wrappers

  const HOUR_MS := 3_600_000
  const TZ8 := 8 * HOUR_MS
  const DAY_MS := 24 * HOUR_MS
  const MAX_HORIZON_MS := 7 * DAY_MS
  /** The largest instant a JavaScript date can hold, in either direction. */
  const MAX_DATE_MS := 8_640_000_000_000_000

  /** Midnights of UTC+8: 10, 3 and 21 September 2026. */
  const PROVENANCE_MS := 1_788_969_600_000
  const CAMPAIGN_START := 1_788_364_800_000
  const CAMPAIGN_END := 1_789_920_000_000

  // ---------- the wall clock of UTC+8

  /** Days since the epoch and milliseconds of the day; an instant past the range of dates
      has neither. */
  datatype Wall = NoDate | Wall(day: int, ms: int)

  function WallClock(ms: int): Wall {
    if -MAX_DATE_MS <= ms + TZ8 <= MAX_DATE_MS then Wall((ms + TZ8) / DAY_MS, (ms + TZ8) % DAY_MS) else NoDate
  }

  /** Sunday is 0; the epoch was a Thursday. */
  function Weekday(day: int): int {
    (day + 4) % 7
  }

  /** Whether the wall-clock hour, in whole seconds, lies in [from, to). */
  predicate HourWithin(w: Wall, from: int, to: int) {
    w.Wall? && from * 3600 <= w.ms / 1000 < to * 3600
  }

  predicate IsPeak(ms: int) {
    var w := WallClock(ms);
    w.Wall? && 1 <= Weekday(w.day) <= 5 && HourWithin(w, 14, 18)
  }

  predicate IsNight(ms: int) {
    HourWithin(WallClock(ms), 23, 24) || HourWithin(WallClock(ms), 0, 9)
  }

  /** The multiplier in quarters: 4 at peak, 2 otherwise, 1 in a campaign night of flash. */
  function DomesticMultiplier(ms: int, isFlash: bool): int {
    var m := if IsPeak(ms) then 4 else 2;
    if isFlash && CAMPAIGN_START <= ms < CAMPAIGN_END && IsNight(ms) then m / 2 else m
  }

  // ---------- the sampled instants

  const TRANSITION_HOURS := [9, 14, 18, 23]

  predicate IsTransition(t: int) {
    exists i :: 0 <= i < 4 && (t + TZ8) % DAY_MS == TRANSITION_HOURS[i] * HOUR_MS
  }

  predicate IsSample(atMs: int, throughMs: int, t: int) {
    || t == atMs || t == throughMs
    || (WallClock(atMs).Wall? && WallClock(throughMs).Wall? && atMs <= t <= throughMs && IsTransition(t))
  }

  function Utc8Midnight(ms: int): int {
    (ms + TZ8) / DAY_MS * DAY_MS - TZ8
  }

  function Added(out: seq<int>, t: int): seq<int> {
    if t in out then out else out + [t]
  }

  /** One of the four transitions of the day that starts at `day`. */
  predicate TransitionOf(day: int, t: int) {
    exists i :: 0 <= i < 4 && t == day + TRANSITION_HOURS[i] * HOUR_MS
  }

  predicate Between(atMs: int, throughMs: int, t: int) {
    atMs <= t <= throughMs
  }

  method AddTransitions(out: seq<int>, day: int, atMs: int, throughMs: int) returns (more: seq<int>)
    ensures forall t :: t in more <==> t in out || (Between(atMs, throughMs, t) && TransitionOf(day, t))
  {
    more := out;
    for i := 0 to 4
      invariant forall t :: t in more <==> (t in out
        || (Between(atMs, throughMs, t) && exists j :: 0 <= j < i && t == day + TRANSITION_HOURS[j] * HOUR_MS))
    {
      var t := day + TRANSITION_HOURS[i] * HOUR_MS;
      if atMs <= t <= throughMs {
        more := Added(more, t);
      }
    }
  }

  /** What is sampled before the turn of a given day. */
  predicate SampledBefore(atMs: int, throughMs: int, day: int, t: int) {
    t == atMs || t == throughMs || (Between(atMs, throughMs, t) && IsTransition(t) && t < day)
  }

  /** The end points of the horizon and every transition between them, each once. */
  method SampleInstants(atMs: int, throughMs: int) returns (out: seq<int>)
    requires atMs <= throughMs
    ensures forall t :: t in out <==> IsSample(atMs, throughMs, t)
  {
    out := Added(Added([], atMs), throughMs);
    if WallClock(atMs).NoDate? || WallClock(throughMs).NoDate? {
      return;
    }
    var day, lastDay := Utc8Midnight(atMs), Utc8Midnight(throughMs);
    FirstDay(atMs, throughMs);
    while day <= lastDay
      invariant (day + TZ8) % DAY_MS == 0
      invariant forall t :: t in out <==> SampledBefore(atMs, throughMs, day, t)
    {
      NextDay(atMs, throughMs, day);
      out := AddTransitions(out, day, atMs, throughMs);
      day := day + DAY_MS;
    }
    LastDay(atMs, throughMs, day);
  }

  lemma FirstDay(atMs: int, throughMs: int)
    ensures (Utc8Midnight(atMs) + TZ8) % DAY_MS == 0
    ensures forall t :: t in Added([atMs], throughMs) <==> SampledBefore(atMs, throughMs, Utc8Midnight(atMs), t)
  {
    MidnightBefore(atMs);
  }

  lemma NextDay(atMs: int, throughMs: int, day: int)
    requires (day + TZ8) % DAY_MS == 0
    ensures forall t :: (SampledBefore(atMs, throughMs, day + DAY_MS, t)
      <==> SampledBefore(atMs, throughMs, day, t) || (Between(atMs, throughMs, t) && TransitionOf(day, t)))
  {
    forall t ensures SampledBefore(atMs, throughMs, day + DAY_MS, t)
      <==> SampledBefore(atMs, throughMs, day, t) || (Between(atMs, throughMs, t) && TransitionOf(day, t))
    {
      TransitionsOfDay(day, t);
    }
  }

  lemma LastDay(atMs: int, throughMs: int, day: int)
    requires WallClock(atMs).Wall? && WallClock(throughMs).Wall?
    requires (day + TZ8) % DAY_MS == 0 && day > Utc8Midnight(throughMs)
    ensures forall t :: SampledBefore(atMs, throughMs, day, t) <==> IsSample(atMs, throughMs, t)
  {
    MidnightBefore(throughMs);
    assert day >= Utc8Midnight(throughMs) + DAY_MS;
  }

  lemma MidnightBefore(ms: int)
    ensures (Utc8Midnight(ms) + TZ8) % DAY_MS == 0 && Utc8Midnight(ms) <= ms < Utc8Midnight(ms) + DAY_MS
  {
  }

  lemma TransitionsOfDay(day: int, t: int)
    requires (day + TZ8) % DAY_MS == 0
    ensures (IsTransition(t) && day <= t < day + DAY_MS) <==> TransitionOf(day, t)
  {
    if day <= t < day + DAY_MS {
      assert (t + TZ8) % DAY_MS == t - day;
    }
    forall j | 0 <= j < 4 && t == day + TRANSITION_HOURS[j] * HOUR_MS
      ensures IsTransition(t) && day <= t < day + DAY_MS
    {
      assert (t + TZ8) % DAY_MS == TRANSITION_HOURS[j] * HOUR_MS;
    }
  }

  // ---------- the samples reach the maximum of the whole horizon

  /** The parts of a day between transitions, and the night before the first. */
  function Segment(ms: int): int {
    if ms < 9 * HOUR_MS then 0
    else if ms < 14 * HOUR_MS then 1
    else if ms < 18 * HOUR_MS then 2
    else if ms < 23 * HOUR_MS then 3
    else 4
  }

  function SegmentStart(segment: int): int
    requires 0 <= segment <= 4
  {
    [0, 9, 14, 18, 23][segment] * HOUR_MS
  }

  /** The multiplier told by day and segment alone: the campaign turns at midnights. */
  function MultiplierOf(day: int, segment: int, isFlash: bool): int {
    var m := if 1 <= Weekday(day) <= 5 && segment == 2 then 4 else 2;
    if isFlash && 20699 <= day < 20717 && (segment == 0 || segment == 4) then m / 2 else m
  }

  lemma MultiplierBySegment(ms: int, isFlash: bool)
    requires WallClock(ms).Wall?
    ensures var w := WallClock(ms); DomesticMultiplier(ms, isFlash) == MultiplierOf(w.day, Segment(w.ms), isFlash)
  {
    var w := WallClock(ms);
    assert ms + TZ8 == w.day * DAY_MS + w.ms && 0 <= w.ms < DAY_MS;
    assert CAMPAIGN_START + TZ8 == 20699 * DAY_MS && CAMPAIGN_END + TZ8 == 20717 * DAY_MS;
    assert CAMPAIGN_START <= ms < CAMPAIGN_END <==> 20699 <= w.day < 20717;
  }

  lemma WallOf(day: int, ms: int)
    requires 0 <= ms < DAY_MS && -MAX_DATE_MS <= day * DAY_MS + ms <= MAX_DATE_MS
    ensures WallClock(day * DAY_MS + ms - TZ8) == Wall(day, ms)
  {
  }

  /** The sample that stands for an instant: its own segment's start, or the end of the night
      it lies in, unless the horizon begins or ends before that. */
  function Representative(atMs: int, throughMs: int, t: int): int {
    var w := WallClock(t);
    if w.NoDate? then t
    else if Segment(w.ms) == 0 then
      (var morning := w.day * DAY_MS + 9 * HOUR_MS - TZ8; if morning <= throughMs then morning else throughMs)
    else
      (var start := w.day * DAY_MS + SegmentStart(Segment(w.ms)) - TZ8; if atMs <= start then start else atMs)
  }

  lemma TransitionAt(day: int, segment: int)
    requires 1 <= segment <= 4
    ensures IsTransition(day * DAY_MS + SegmentStart(segment) - TZ8)
  {
    var t := day * DAY_MS + SegmentStart(segment) - TZ8;
    assert (t + TZ8) % DAY_MS == SegmentStart(segment) == TRANSITION_HOURS[segment - 1] * HOUR_MS;
  }

  lemma RepresentativeIsSample(atMs: int, throughMs: int, t: int)
    requires WallClock(atMs).Wall? && WallClock(throughMs).Wall? && atMs <= t <= throughMs
    ensures IsSample(atMs, throughMs, Representative(atMs, throughMs, t))
  {
    var w := WallClock(t);
    assert t + TZ8 == w.day * DAY_MS + w.ms;
    if Segment(w.ms) == 0 {
      TransitionAt(w.day, 1);
    } else {
      TransitionAt(w.day, Segment(w.ms));
    }
  }

  lemma RepresentativeIsAsHigh(atMs: int, throughMs: int, t: int, isFlash: bool)
    requires WallClock(atMs).Wall? && WallClock(throughMs).Wall? && atMs <= t <= throughMs
    ensures DomesticMultiplier(t, isFlash) <= DomesticMultiplier(Representative(atMs, throughMs, t), isFlash)
  {
    var w, r := WallClock(t), Representative(atMs, throughMs, t);
    assert t + TZ8 == w.day * DAY_MS + w.ms;
    MultiplierBySegment(t, isFlash);
    var k := r + TZ8 - w.day * DAY_MS;
    WallOf(w.day, k);
    MultiplierBySegment(r, isFlash);
  }

  /** The horizon keeps within the range of dates, or begins past it, at a peak, or after
      the last one. */
  predicate Sampled(atMs: int, throughMs: int) {
    || WallClock(throughMs).Wall? || WallClock(atMs).NoDate?
    || IsPeak(atMs) || atMs + TZ8 >= MAX_DATE_MS - 6 * HOUR_MS
  }

  /** No instant of the horizon costs more than the dearest sample. */
  ghost predicate SamplesReach(atMs: int, throughMs: int, isFlash: bool) {
    forall t :: atMs <= t <= throughMs ==> Reached(atMs, throughMs, t, isFlash)
  }

  ghost predicate Reached(atMs: int, throughMs: int, t: int, isFlash: bool) {
    exists s :: IsSample(atMs, throughMs, s) && DomesticMultiplier(t, isFlash) <= DomesticMultiplier(s, isFlash)
  }

  lemma SamplesReachWithinDates(atMs: int, throughMs: int, isFlash: bool)
    requires atMs <= throughMs && WallClock(atMs).Wall? && WallClock(throughMs).Wall?
    ensures SamplesReach(atMs, throughMs, isFlash)
  {
    forall t | atMs <= t <= throughMs ensures Reached(atMs, throughMs, t, isFlash) {
      RepresentativeIsSample(atMs, throughMs, t);
      RepresentativeIsAsHigh(atMs, throughMs, t, isFlash);
    }
  }

  lemma NoPeakLate(t: int, w: Wall)
    requires w == WallClock(t) && w.Wall? && MAX_DATE_MS - 6 * HOUR_MS - TZ8 <= t
    requires t + TZ8 == w.day * DAY_MS + w.ms && 0 <= w.ms < DAY_MS
    ensures !IsPeak(t)
  {
    assert w.day == 99_999_999 || w.day == 100_000_000;
    if w.day == 100_000_000 {
      assert Weekday(100_000_000) == 6;
    } else {
      assert w.ms >= 18 * HOUR_MS;
      assert w.ms / 1000 >= 18 * 3600;
    }
  }

  lemma WallIsWhole(t: int)
    requires WallClock(t).Wall?
    ensures var w := WallClock(t); t + TZ8 == w.day * DAY_MS + w.ms && 0 <= w.ms < DAY_MS
  {
  }

  /** The range of dates ends with a Saturday midnight; the last peak ends six hours before. */
  lemma LastPeak()
    ensures IsPeak(MAX_DATE_MS - 6 * HOUR_MS - TZ8 - 1)
    ensures forall t :: MAX_DATE_MS - 6 * HOUR_MS - TZ8 <= t ==> !IsPeak(t)
  {
    WallOf(99_999_999, 18 * HOUR_MS - 1);
    assert Weekday(99_999_999) == 5;
    forall t | MAX_DATE_MS - 6 * HOUR_MS - TZ8 <= t ensures !IsPeak(t) {
      if WallClock(t).Wall? {
        WallIsWhole(t);
        NoPeakLate(t, WallClock(t));
      }
    }
  }

  /** Past the range of dates nothing between the end points is sampled, so a horizon that
      crosses it can miss a peak. The samples reach the maximum of every millisecond exactly
      when none can be missed. */
  lemma SamplesReachExactlyWhen(atMs: int, throughMs: int, isFlash: bool)
    requires PROVENANCE_MS <= atMs <= throughMs
    ensures SamplesReach(atMs, throughMs, isFlash) <==> Sampled(atMs, throughMs)
  {
    LastPeak();
    if WallClock(throughMs).Wall? {
      SamplesReachWithinDates(atMs, throughMs, isFlash);
    } else {
      var last := MAX_DATE_MS - 6 * HOUR_MS - TZ8 - 1;
      assert IsSample(atMs, throughMs, atMs) && IsSample(atMs, throughMs, throughMs);
      assert DomesticMultiplier(throughMs, isFlash) == 2;
      if IsPeak(atMs) {
        PeakIsFull(atMs, isFlash);
      } else if atMs <= last {
        PeakIsFull(last, isFlash);
        assert DomesticMultiplier(atMs, isFlash) <= 2;
        assert !Reached(atMs, throughMs, last, isFlash);
      }
    }
  }

  lemma PeakIsFull(ms: int, isFlash: bool)
    requires IsPeak(ms)
    ensures DomesticMultiplier(ms, isFlash) == 4
  {
  }

  /** The last admitted week that crosses the range of dates misses its five peaks. */
  lemma CrossingHorizonMissesPeaks()
    ensures var throughMs := MAX_DATE_MS - TZ8 + HOUR_MS;
      !SamplesReach(throughMs - MAX_HORIZON_MS, throughMs, false)
  {
    var throughMs := MAX_DATE_MS - TZ8 + HOUR_MS;
    WallOf(99_999_993, HOUR_MS);
    SamplesReachExactlyWhen(throughMs - MAX_HORIZON_MS, throughMs, false);
  }

  // ---------- the score

  /** The dearest multiplier of a closed horizon. */
  ghost predicate IsWorst(atMs: int, throughMs: int, isFlash: bool, m: int) {
    && (exists t :: atMs <= t <= throughMs && DomesticMultiplier(t, isFlash) == m)
    && (forall t :: atMs <= t <= throughMs ==> DomesticMultiplier(t, isFlash) <= m)
  }

  /** The dearest multiplier of the instants that are sampled. */
  ghost predicate IsDearestSample(atMs: int, throughMs: int, isFlash: bool, m: int) {
    && (exists t :: IsSample(atMs, throughMs, t) && DomesticMultiplier(t, isFlash) == m)
    && (forall t :: IsSample(atMs, throughMs, t) ==> DomesticMultiplier(t, isFlash) <= m)
  }

  datatype Coefficients = Coefficients(input: real, cached: real, output: real)

  datatype Input = Input(
    provider: string, model: string, client: string, atMs: Option<int>, throughMs: Option<int>, authenticated: bool)

  /** The answer; coefficients that are no numbers are missing. */
  datatype Economics = Economics(ruleId: string, efficiencyScore: real, coefficients: Option<Coefficients>)

  /** What a lookup in a table of models finds: nothing, a row, or, since the tables are plain
      objects, a property that every object inherits and that holds no number. */
  datatype Row<T> = Missing | Inherited | Own(value: T)

  predicate InheritedKey(key: string) {
    || key in ["constructor", "hasOwnProperty", "isPrototypeOf", "propertyIsEnumerable", "toLocaleString"]
    || key in ["toString", "valueOf", "__proto__", "__defineGetter__", "__defineSetter__"]
    || key in ["__lookupGetter__", "__lookupSetter__"]
  }

  const STANDARD := Coefficients(6.9, 1.7, 24.0)
  const FLASH := Coefficients(2.3, 0.56, 8.0)

  function DomesticBase(model: string): Row<Coefficients> {
    if model == "glm-5.3" then Own(STANDARD)
    else if model == "glm-5.3-flash" then Own(FLASH)
    else if InheritedKey(model) then Inherited
    else Missing
  }

  predicate DomesticClient(client: string) {
    client in ["claude", "codebuddy", "opencode"]
  }

  function Clamp01(v: real): real {
    if v < 0.0 then 0.0 else if v > 1.0 then 1.0 else v
  }

  function MaxReal(a: real, b: real): real {
    if a < b then b else a
  }

  function Quarters(m: int): real {
    m as real / 4.0
  }

  function Scaled(base: Coefficients, m: int): Coefficients {
    Coefficients(base.input * Quarters(m), base.cached * Quarters(m), base.output * Quarters(m))
  }

  function ScoreOf(a: real, b: real, c: real): real {
    Clamp01(1.0 - MaxReal(a, MaxReal(b, c)))
  }

  function Efficiency(base: Coefficients, m: int): real {
    var c := Scaled(base, m);
    ScoreOf(c.input / 6.9, c.cached / 1.7, c.output / 24.0)
  }

  /** The horizon is known, in order, at most a week long and not before the rules were checked. */
  predicate Admitted(input: Input) {
    && input.authenticated && input.atMs.Some? && input.throughMs.Some?
    && PROVENANCE_MS <= input.atMs.value <= input.throughMs.value <= input.atMs.value + MAX_HORIZON_MS
  }

  function GoAllowance(model: string): (r: Row<(real, Coefficients)>)
    ensures r.Own? ==> r.value.0 > 0.0
  {
    match model
    case "glm-5.3-flash" => Own((60.0, Coefficients(0.15, 0.03, 0.5)))
    case "glm-5.3" => Own((15.0, Coefficients(1.4, 0.26, 4.4)))
    case "deepseek-v4.1-flash" => Own((15.0, Coefficients(0.3, 0.006, 1.2)))
    case "hunyuan-hy3" => Own((60.0, Coefficients(0.14, 0.035, 0.58)))
    case _ => if InheritedKey(model) then Inherited else Missing
  }

  /** A score that is no number is clamped to 0. */
  function ResolveGo(model: string, client: string): Option<Economics> {
    if client != "opencode" then None
    else
      match GoAllowance(model)
      case Missing => None
      case Inherited => Some(Economics("opencode-go-subscription", 0.0, None))
      case Own((limit, rates)) =>
        Some(Economics("opencode-go-subscription", Clamp01(1.0 - 10.0 / limit), Some(rates)))
  }

  method ResolveDomestic(model: string, client: string, atMs: int, throughMs: int) returns (r: Option<Economics>)
    requires PROVENANCE_MS <= atMs <= throughMs
    ensures r.Some? <==> !DomesticBase(model).Missing? && DomesticClient(client)
    ensures r.Some? ==> IsAnswer(model, atMs, throughMs, r.value)
  {
    if DomesticBase(model).Missing? || !DomesticClient(client) {
      return None;
    }
    var isFlash := model == "glm-5.3-flash";
    var samples := SampleInstants(atMs, throughMs);
    var maxM := 0;
    for i := 0 to |samples|
      invariant forall j :: 0 <= j < i ==> DomesticMultiplier(samples[j], isFlash) <= maxM
      invariant if i == 0 then maxM == 0 else exists j :: 0 <= j < i && DomesticMultiplier(samples[j], isFlash) == maxM
    {
      var m := DomesticMultiplier(samples[i], isFlash);
      if m > maxM {
        maxM := m;
      }
    }
    r := Some(DomesticEconomics(model, maxM));
    assert atMs in samples by { assert IsSample(atMs, throughMs, atMs); }
    SamplesGiveDearest(atMs, throughMs, isFlash, samples, maxM);
    if Sampled(atMs, throughMs) {
      SamplesGiveWorst(atMs, throughMs, isFlash, maxM);
    }
  }

  /** The answer for a horizon: that of its dearest sample, which is its dearest millisecond
      unless the horizon misses a peak. */
  ghost predicate IsAnswer(model: string, atMs: int, throughMs: int, e: Economics)
    requires !DomesticBase(model).Missing?
  {
    exists m ::
      && IsDearestSample(atMs, throughMs, model == "glm-5.3-flash", m)
      && (Sampled(atMs, throughMs) ==> IsWorst(atMs, throughMs, model == "glm-5.3-flash", m))
      && e == DomesticEconomics(model, m)
  }

  function DomesticEconomics(model: string, m: int): Economics
    requires !DomesticBase(model).Missing?
  {
    match DomesticBase(model)
    case Inherited => Economics("zhipu-coding-domestic", 0.0, None)
    case Own(base) => Economics("zhipu-coding-domestic", Efficiency(base, m), Some(Scaled(base, m)))
  }

  /** An answer without numbers is given exactly for a name that every object inherits. */
  lemma NumberlessExactlyWhen(model: string, m: int)
    ensures !DomesticBase(model).Missing? ==> (DomesticEconomics(model, m).coefficients.None? <==> InheritedKey(model))
    ensures ResolveGo(model, "opencode").Some? ==>
      (ResolveGo(model, "opencode").value.coefficients.None? <==> InheritedKey(model))
    ensures InheritedKey(model) ==> !DomesticBase(model).Missing? && ResolveGo(model, "opencode").Some?
  {
    if InheritedKey(model) {
      assert model[0] in ['c', 'h', 'i', 'p', 't', 'v', '_'];
      assert model[0] == 'h' ==> model[1] == 'a';
    }
  }

  lemma SamplesGiveDearest(atMs: int, throughMs: int, isFlash: bool, samples: seq<int>, m: int)
    requires forall t :: t in samples <==> IsSample(atMs, throughMs, t)
    requires forall j :: 0 <= j < |samples| ==> DomesticMultiplier(samples[j], isFlash) <= m
    requires exists j :: 0 <= j < |samples| && DomesticMultiplier(samples[j], isFlash) == m
    ensures IsDearestSample(atMs, throughMs, isFlash, m)
  {
    var j :| 0 <= j < |samples| && DomesticMultiplier(samples[j], isFlash) == m;
    assert samples[j] in samples && IsSample(atMs, throughMs, samples[j]);
    forall t | IsSample(atMs, throughMs, t) ensures DomesticMultiplier(t, isFlash) <= m {
      assert t in samples;
      var i :| 0 <= i < |samples| && samples[i] == t;
    }
  }

  lemma SamplesGiveWorst(atMs: int, throughMs: int, isFlash: bool, m: int)
    requires PROVENANCE_MS <= atMs <= throughMs && Sampled(atMs, throughMs)
    requires IsDearestSample(atMs, throughMs, isFlash, m)
    ensures IsWorst(atMs, throughMs, isFlash, m)
  {
    SamplesReachExactlyWhen(atMs, throughMs, isFlash);
    var t0 :| IsSample(atMs, throughMs, t0) && DomesticMultiplier(t0, isFlash) == m;
    assert atMs <= t0 <= throughMs;
    forall t | atMs <= t <= throughMs ensures DomesticMultiplier(t, isFlash) <= m {
      assert Reached(atMs, throughMs, t, isFlash);
      var s :| IsSample(atMs, throughMs, s) && DomesticMultiplier(t, isFlash) <= DomesticMultiplier(s, isFlash);
    }
  }

  method ResolveSubscriptionEconomics(input: Input) returns (r: Option<Economics>)
    ensures !Admitted(input) ==> r.None?
    ensures Admitted(input) && input.provider == "opencode-go" ==> r == ResolveGo(input.model, input.client)
    ensures Admitted(input) && input.provider == "opencode-go" ==>
      (r.Some? <==> input.client == "opencode" && !GoAllowance(input.model).Missing?)
    ensures Admitted(input) && input.provider == "zhipu-coding" ==>
      && (r.Some? <==> !DomesticBase(input.model).Missing? && DomesticClient(input.client))
      && (r.Some? ==> IsAnswer(input.model, input.atMs.value, input.throughMs.value, r.value))
    ensures r.Some? ==> (r.value.coefficients.None? <==> InheritedKey(input.model))
    ensures input.provider != "opencode-go" && input.provider != "zhipu-coding" ==> r.None?
  {
    if !input.authenticated {
      return None;
    }
    if input.atMs.None? || input.throughMs.None? {
      return None;
    }
    var atMs, throughMs := input.atMs.value, input.throughMs.value;
    if throughMs < atMs {
      return None;
    }
    if throughMs - atMs > MAX_HORIZON_MS {
      return None;
    }
    if atMs < PROVENANCE_MS {
      return None;
    }
    NumberlessExactlyWhen(input.model, 0);
    if input.provider == "zhipu-coding" {
      r := ResolveDomestic(input.model, input.client, atMs, throughMs);
    } else if input.provider == "opencode-go" {
      r := ResolveGo(input.model, input.client);
    } else {
      r := None;
    }
  }

  // ---------- what the numbers of an answer mean

  lemma ScoreIsRest(a: real, b: real, c: real)
    requires 0.0 <= a <= 1.0 && 0.0 <= b <= 1.0 && 0.0 <= c <= 1.0
    ensures var share := 1.0 - ScoreOf(a, b, c);
      a <= share && b <= share && c <= share && (share == a || share == b || share == c)
  {
  }

  /** The part of the standard price that is used up: no coefficient takes a larger part of
      the standard one, and one takes just that. */
  predicate IsLargestShare(c: Coefficients, share: real) {
    && c.input <= share * 6.9 && c.cached <= share * 1.7 && c.output <= share * 24.0
    && (c.input == share * 6.9 || c.cached == share * 1.7 || c.output == share * 24.0)
  }

  lemma SharesOf(c: Coefficients, share: real)
    requires c.input / 6.9 <= share && c.cached / 1.7 <= share && c.output / 24.0 <= share
    requires share == c.input / 6.9 || share == c.cached / 1.7 || share == c.output / 24.0
    ensures IsLargestShare(c, share)
  {
  }

  lemma MultiplierIsQuarters(ms: int, isFlash: bool)
    ensures DomesticMultiplier(ms, isFlash) in {1, 2, 4}
  {
  }

  lemma ScaledByQuarters(base: Coefficients, m: int, c: Coefficients)
    requires c == Scaled(base, m) && m in {1, 2, 4}
    ensures 4.0 * c.input == m as real * base.input && 4.0 * c.cached == m as real * base.cached
    ensures 4.0 * c.output == m as real * base.output
  {
    var q := Quarters(m);
    assert q == 0.25 || q == 0.5 || q == 1.0;
  }

  /** The coefficients are the plan's own, times the multiplier, and the score is what the
      largest share of the standard price leaves. */
  predicate TellsNumbers(base: Coefficients, m: int, e: Economics) {
    && e.coefficients.Some? && 0.0 <= e.efficiencyScore <= 1.0
    && 4.0 * e.coefficients.value.input == m as real * base.input
    && 4.0 * e.coefficients.value.cached == m as real * base.cached
    && 4.0 * e.coefficients.value.output == m as real * base.output
    && IsLargestShare(e.coefficients.value, 1.0 - e.efficiencyScore)
  }

  lemma DomesticNumbers(model: string, m: int, e: Economics)
    requires DomesticBase(model).Own? && m in {1, 2, 4} && e == DomesticEconomics(model, m)
    ensures TellsNumbers(DomesticBase(model).value, m, e)
  {
    var base := DomesticBase(model).value;
    var c := Scaled(base, m);
    ScaledByQuarters(base, m, c);
    ScoreIsRest(c.input / 6.9, c.cached / 1.7, c.output / 24.0);
    SharesOf(c, 1.0 - ScoreOf(c.input / 6.9, c.cached / 1.7, c.output / 24.0));
  }

  /** Every domestic answer with numbers tells those of the dearest sample. */
  lemma AnswerNumbers(model: string, atMs: int, throughMs: int, e: Economics)
    requires DomesticBase(model).Own? && IsAnswer(model, atMs, throughMs, e)
    ensures exists m :: IsDearestSample(atMs, throughMs, model == "glm-5.3-flash", m)
                     && TellsNumbers(DomesticBase(model).value, m, e)
  {
    var isFlash := model == "glm-5.3-flash";
    var m :| IsDearestSample(atMs, throughMs, isFlash, m) && e == DomesticEconomics(model, m);
    var t :| IsSample(atMs, throughMs, t) && DomesticMultiplier(t, isFlash) == m;
    MultiplierIsQuarters(t, isFlash);
    DomesticNumbers(model, m, e);
  }

  /** A Go answer tells the rates of its model, and the subscription is what the score leaves
      of the monthly allowance. */
  lemma GoNumbers(model: string, e: Economics)
    requires ResolveGo(model, "opencode") == Some(e) && GoAllowance(model).Own?
    ensures 0.0 <= e.efficiencyScore <= 1.0 && (1.0 - e.efficiencyScore) * GoAllowance(model).value.0 == 10.0
    ensures e.coefficients == Some(GoAllowance(model).value.1)
  {
  }

  lemma ScoreFalls(a: real, b: real, c: real, x: real, y: real, z: real)
    requires a <= x && b <= y && c <= z
    ensures ScoreOf(x, y, z) <= ScoreOf(a, b, c)
  {
  }

  lemma StandardShares(m: int)
    ensures Efficiency(STANDARD, m) == ScoreOf(Quarters(m), Quarters(m), Quarters(m))
  {
  }

  lemma FlashShares(m: int)
    ensures Efficiency(FLASH, m) ==
      ScoreOf(2.3 / 6.9 * Quarters(m), 0.56 / 1.7 * Quarters(m), 8.0 / 24.0 * Quarters(m))
  {
  }

  /** A dearer multiplier never raises the score. */
  lemma DearerIsLessEfficient(model: string, m: int, n: int)
    requires m <= n && DomesticBase(model).Own?
    ensures Efficiency(DomesticBase(model).value, n) <= Efficiency(DomesticBase(model).value, m)
  {
    var q, r := Quarters(m), Quarters(n);
    assert q <= r;
    if model == "glm-5.3" {
      StandardShares(m);
      StandardShares(n);
      ScoreFalls(q, q, q, r, r, r);
    } else {
      FlashShares(m);
      FlashShares(n);
      ScoreFalls(2.3 / 6.9 * q, 0.56 / 1.7 * q, 8.0 / 24.0 * q, 2.3 / 6.9 * r, 0.56 / 1.7 * r, 8.0 / 24.0 * r);
    }
  }

  lemma QuarterValues()
    ensures Quarters(4) == 1.0 && Quarters(2) == 0.5
  {
  }

  lemma StandardScores()
    ensures DomesticEconomics("glm-5.3", 4).efficiencyScore == 0.0
    ensures DomesticEconomics("glm-5.3", 2).efficiencyScore == 0.5
  {
    QuarterValues();
    assert Scaled(STANDARD, 4) == Coefficients(6.9, 1.7, 24.0);
    assert Scaled(STANDARD, 2) == Coefficients(3.45, 0.85, 12.0);
  }

  lemma FlashAtPeak()
    ensures DomesticEconomics("glm-5.3-flash", 4).efficiencyScore < 0.7
  {
    QuarterValues();
    assert Scaled(FLASH, 4) == Coefficients(2.3, 0.56, 8.0);
  }

  lemma FlashOffPeak()
    ensures 0.8 < DomesticEconomics("glm-5.3-flash", 2).efficiencyScore
  {
    QuarterValues();
    assert Scaled(FLASH, 2) == Coefficients(1.15, 0.28, 4.0);
  }

  /** The answer of a horizon is told by any dearest multiplier of its samples. */
  lemma AnswerOf(model: string, atMs: int, throughMs: int, m: int, e: Economics)
    requires !DomesticBase(model).Missing? && PROVENANCE_MS <= atMs <= throughMs
    requires IsDearestSample(atMs, throughMs, model == "glm-5.3-flash", m) && e == DomesticEconomics(model, m)
    ensures IsAnswer(model, atMs, throughMs, e)
  {
    if Sampled(atMs, throughMs) {
      SamplesGiveWorst(atMs, throughMs, model == "glm-5.3-flash", m);
    }
  }

  lemma WiderIsDearer(atMs: int, throughMs: int, wideAt: int, wideThrough: int, isFlash: bool, m: int, n: int)
    requires PROVENANCE_MS <= wideAt <= atMs <= throughMs <= wideThrough
    requires IsDearestSample(atMs, throughMs, isFlash, m) && IsWorst(wideAt, wideThrough, isFlash, n)
    ensures m <= n
  {
    var t :| IsSample(atMs, throughMs, t) && DomesticMultiplier(t, isFlash) == m;
    assert wideAt <= t <= wideThrough;
  }

  lemma DearerScoresLower(model: string, m: int, n: int)
    requires !DomesticBase(model).Missing? && m <= n
    ensures DomesticEconomics(model, n).efficiencyScore <= DomesticEconomics(model, m).efficiencyScore
  {
    if DomesticBase(model).Own? { DearerIsLessEfficient(model, m, n); }
  }

  /** Widening a horizon to one that misses no peak never raises the score that is answered. */
  lemma WideningNeverHelps(
      model: string, atMs: int, throughMs: int, wideAt: int, wideThrough: int, e: Economics, f: Economics)
    requires !DomesticBase(model).Missing?
    requires PROVENANCE_MS <= wideAt <= atMs <= throughMs <= wideThrough && Sampled(wideAt, wideThrough)
    requires IsAnswer(model, atMs, throughMs, e) && IsAnswer(model, wideAt, wideThrough, f)
    ensures f.efficiencyScore <= e.efficiencyScore
  {
    var isFlash := model == "glm-5.3-flash";
    var m :| IsDearestSample(atMs, throughMs, isFlash, m) && e == DomesticEconomics(model, m);
    var n :| IsWorst(wideAt, wideThrough, isFlash, n) && f == DomesticEconomics(model, n);
    WiderIsDearer(atMs, throughMs, wideAt, wideThrough, isFlash, m, n);
    DearerScoresLower(model, m, n);
  }

  /** The narrow horizon is answered with no lower score than the wide one. */
  ghost predicate ScoresAsHigh(model: string, atMs: int, throughMs: int, wideAt: int, wideThrough: int)
    requires !DomesticBase(model).Missing?
  {
    forall e, f :: (IsAnswer(model, atMs, throughMs, e) && IsAnswer(model, wideAt, wideThrough, f)
      ==> f.efficiencyScore <= e.efficiencyScore)
  }

  /** No horizon within this one is answered with a lower score. */
  ghost predicate NoneWithinScoresLower(model: string, wideAt: int, wideThrough: int)
    requires !DomesticBase(model).Missing?
  {
    forall atMs, throughMs :: wideAt <= atMs <= throughMs <= wideThrough ==>
      ScoresAsHigh(model, atMs, throughMs, wideAt, wideThrough)
  }

  /** The last instant of the last peak in the range of dates. */
  const LAST_PEAK_MS := MAX_DATE_MS - 6 * HOUR_MS - TZ8 - 1

  /** A horizon that misses a peak holds the last one, and its own samples are all off-peak. */
  lemma MissedPeak(wideAt: int, wideThrough: int, isFlash: bool)
    requires PROVENANCE_MS <= wideAt <= wideThrough && !Sampled(wideAt, wideThrough)
    ensures wideAt <= LAST_PEAK_MS <= wideThrough
    ensures IsDearestSample(wideAt, wideThrough, isFlash, 2)
    ensures IsDearestSample(LAST_PEAK_MS, LAST_PEAK_MS, isFlash, 4)
  {
    LastPeak();
    PeakIsFull(LAST_PEAK_MS, isFlash);
    assert IsSample(LAST_PEAK_MS, LAST_PEAK_MS, LAST_PEAK_MS);
    assert IsSample(wideAt, wideThrough, wideThrough) && DomesticMultiplier(wideThrough, isFlash) == 2;
    assert DomesticMultiplier(wideAt, isFlash) <= 2;
  }

  lemma SampledScoresAsHigh(model: string, wideAt: int, wideThrough: int)
    requires !DomesticBase(model).Missing? && PROVENANCE_MS <= wideAt <= wideThrough && Sampled(wideAt, wideThrough)
    ensures NoneWithinScoresLower(model, wideAt, wideThrough)
  {
    forall atMs, throughMs | wideAt <= atMs <= throughMs <= wideThrough
      ensures ScoresAsHigh(model, atMs, throughMs, wideAt, wideThrough)
    {
      forall e, f | IsAnswer(model, atMs, throughMs, e) && IsAnswer(model, wideAt, wideThrough, f)
        ensures f.efficiencyScore <= e.efficiencyScore
      {
        WideningNeverHelps(model, atMs, throughMs, wideAt, wideThrough, e, f);
      }
    }
  }

  /** The last peak alone scores lower than a horizon that misses it. */
  lemma MissedPeakScoresLower(
      model: string, wideAt: int, wideThrough: int, m: int, n: int, e: Economics, f: Economics)
    requires !DomesticBase(model).Missing? && PROVENANCE_MS <= wideAt <= wideThrough && !Sampled(wideAt, wideThrough)
    requires m == 4 && n == 2 && e == DomesticEconomics(model, m) && f == DomesticEconomics(model, n)
    requires e.efficiencyScore < f.efficiencyScore
    ensures !NoneWithinScoresLower(model, wideAt, wideThrough)
  {
    MissedPeak(wideAt, wideThrough, model == "glm-5.3-flash");
    AnswerOf(model, LAST_PEAK_MS, LAST_PEAK_MS, m, e);
    AnswerOf(model, wideAt, wideThrough, n, f);
    assert !ScoresAsHigh(model, LAST_PEAK_MS, LAST_PEAK_MS, wideAt, wideThrough);
  }

  lemma StandardScoresLower(model: string, m: int, n: int, x: real, y: real)
    requires model == "glm-5.3" && m == 4 && n == 2
    requires x == DomesticEconomics(model, m).efficiencyScore && y == DomesticEconomics(model, n).efficiencyScore
    ensures x < y
  {
    StandardScores();
    assert x == 0.0;
  }

  lemma FlashScoresLower(model: string, m: int, n: int, x: real, y: real)
    requires model == "glm-5.3-flash" && m == 4 && n == 2
    requires x == DomesticEconomics(model, m).efficiencyScore && y == DomesticEconomics(model, n).efficiencyScore
    ensures x < y
  {
    FlashAtPeak();
    FlashOffPeak();
    assert x < 0.7;
  }

  lemma PeakScoresLower(model: string, m: int, n: int, x: real, y: real)
    requires DomesticBase(model).Own? && m == 4 && n == 2
    requires x == DomesticEconomics(model, m).efficiencyScore && y == DomesticEconomics(model, n).efficiencyScore
    ensures x < y
  {
    if model == "glm-5.3" {
      StandardScoresLower(model, m, n, x, y);
    } else {
      FlashScoresLower(model, m, n, x, y);
    }
  }

  lemma SameWithoutNumbers(model: string, wideAt: int, wideThrough: int)
    requires DomesticBase(model).Inherited?
    ensures NoneWithinScoresLower(model, wideAt, wideThrough)
  {
    forall atMs, throughMs | wideAt <= atMs <= throughMs <= wideThrough
      ensures ScoresAsHigh(model, atMs, throughMs, wideAt, wideThrough)
    {
      assert forall m :: DomesticEconomics(model, m).efficiencyScore == 0.0;
    }
  }

  /** Widening never raises the answered score, whatever horizon within it one starts from,
      exactly when the wide horizon misses no peak, or the model is answered without numbers.
      Otherwise the last peak alone scores lower. */
  lemma WideningNeverHelpsExactlyWhen(model: string, wideAt: int, wideThrough: int)
    requires !DomesticBase(model).Missing? && PROVENANCE_MS <= wideAt <= wideThrough
    ensures NoneWithinScoresLower(model, wideAt, wideThrough) <==>
      Sampled(wideAt, wideThrough) || DomesticBase(model).Inherited?
  {
    if Sampled(wideAt, wideThrough) {
      SampledScoresAsHigh(model, wideAt, wideThrough);
    } else if DomesticBase(model).Inherited? {
      SameWithoutNumbers(model, wideAt, wideThrough);
    } else {
      var peak, off := 4, 2;
      var e, f := DomesticEconomics(model, peak), DomesticEconomics(model, off);
      PeakScoresLower(model, peak, off, e.efficiencyScore, f.efficiencyScore);
      MissedPeakScoresLower(model, wideAt, wideThrough, peak, off, e, f);
    }
  }

  /** An admitted week across the end of the range of dates is answered with 0.5, the last
      peak within it with 0. */
  lemma CrossingWeekScoresHigher(wideAt: int, wideThrough: int, e: Economics, f: Economics)
    requires wideThrough == MAX_DATE_MS - TZ8 + HOUR_MS && wideAt == wideThrough - MAX_HORIZON_MS
    requires IsAnswer("glm-5.3", LAST_PEAK_MS, LAST_PEAK_MS, e) && IsAnswer("glm-5.3", wideAt, wideThrough, f)
    ensures PROVENANCE_MS <= wideAt <= LAST_PEAK_MS <= wideThrough
    ensures e.efficiencyScore == 0.0 && f.efficiencyScore == 0.5
  {
    CrossingWeek(wideAt, wideThrough);
    MissedPeak(wideAt, wideThrough, false);
    StandardAnswer(LAST_PEAK_MS, LAST_PEAK_MS, 4, e);
    StandardAnswer(wideAt, wideThrough, 2, f);
    StandardScores();
  }

  lemma CrossingWeek(wideAt: int, wideThrough: int)
    requires wideThrough == MAX_DATE_MS - TZ8 + HOUR_MS && wideAt == wideThrough - MAX_HORIZON_MS
    ensures PROVENANCE_MS <= wideAt && !Sampled(wideAt, wideThrough)
  {
    WallOf(99_999_993, HOUR_MS);
  }

  lemma StandardAnswer(atMs: int, throughMs: int, m: int, e: Economics)
    requires IsDearestSample(atMs, throughMs, false, m) && IsAnswer("glm-5.3", atMs, throughMs, e)
    ensures e == DomesticEconomics("glm-5.3", m)
  {
    var n :| IsDearestSample(atMs, throughMs, false, n) && e == DomesticEconomics("glm-5.3", n);
    assert m == n;
  }
}
