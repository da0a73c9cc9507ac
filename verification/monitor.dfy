/**
 * One iteration of the sump-pump monitoring loop, as a pure function from the
 * monitor's state and the tick's inputs to the new state and the effects the
 * tick produced (alerts sent, rows logged, turn-off commands issued).
 *
 * Time is whole seconds counted from `datetime.min`. The device reports
 * milliwatts; the loop converts them to watts by dividing by 1000.
 *
 * An exception in the monitoring script ends the tick where it is raised: assignments to
 * the global trackers made before that point stay, later ones never happen,
 * and effects already produced stay produced. `TickResult.outcome` records
 * whether the tick ran to the end or where it stopped.
 */
module Monitor {
  import opened Wrappers
  import opened Telemetry

  /** Draw above this many watts counts as the pump running. */
  const PowerThresholdWatts: real := 0.005
  /** A run lasting strictly longer than this many seconds is cut off. */
  const LongRunSeconds: int := 60
  /** Silence strictly longer than this many seconds (6 h) is suspicious... */
  const NoPowerSeconds: int := 6 * 60 * 60
  /** ...when at least this much rain fell in the trailing 24 hours. */
  const RainAlertThresholdMm: real := 10.0
  /** The 24-hour rainfall query is repeated after this many seconds. */
  const HourlyPeriodSeconds: int := 3600
  /** The 7-day rainfall query is repeated after this many seconds. */
  const DailyPeriodSeconds: int := 86400
  /** Less than this much rain (1.5 inches) in 7 days asks for watering. */
  const LawnAlertThresholdMm: real := 38.1
  /** `datetime.min`, the origin of the time line. */
  const DatetimeMin: int := 0

  /** The global trackers of the monitoring script. */
  datatype State = State(
    powerOnStart: Option<int>,      // start of the current run, None while idle
    lastPowerTime: int,             // last tick that saw draw above threshold
    alertedNoPower: bool,           // latch of the no-draw-despite-rain alert
    alertedLongPower: bool,         // latch of the long-run alert
    lastRainCheckTime: int,         // last successful 24-hour rainfall query
    lastWeeklyRainCheckTime: int,   // last 7-day rainfall query
    rainLast24h: real)              // cached 24-hour rainfall (mm)

  /**
   * The long-run latch is only ever up during a run and the no-draw latch
   * only between runs.
   */
  predicate Inv(s: State) {
    && (s.alertedLongPower ==> s.powerOnStart.Some?)
    && (s.alertedNoPower ==> s.powerOnStart.None?)
  }

  /** The hourly weather query is due. */
  predicate HourlyDue(s: State, now: int) {
    now - s.lastRainCheckTime > HourlyPeriodSeconds
  }

  /** The daily weather query is due. */
  predicate DailyDue(s: State, now: int) {
    now - s.lastWeeklyRainCheckTime > DailyPeriodSeconds
  }

  /** A run is open, has lasted over a minute, and has not been cut off yet. */
  predicate LongRunDue(s: State, now: int) {
    && s.powerOnStart.Some?
    && now - s.powerOnStart.value > LongRunSeconds
    && !s.alertedLongPower
  }

  /** Six hours of silence, not yet reported, with enough cached rain. */
  predicate NoPowerDue(s: State, now: int) {
    && now - s.lastPowerTime > NoPowerSeconds
    && !s.alertedNoPower
    && s.rainLast24h >= RainAlertThresholdMm
  }

  /**
   * The trackers at import time: idle, nothing latched, no rain cached, both
   * weather checks dated `datetime.min`, and the last draw dated at start-up.
   */
  function Init(startTime: int): (s: State)
    ensures Inv(s)
    ensures s.powerOnStart.None? && !s.alertedLongPower && !s.alertedNoPower
    ensures s.lastPowerTime == startTime && s.rainLast24h == 0.0
    ensures s.lastRainCheckTime == DatetimeMin && s.lastWeeklyRainCheckTime == DatetimeMin
    ensures forall now :: now > DatetimeMin + DailyPeriodSeconds ==> HourlyDue(s, now) && DailyDue(s, now)
    ensures forall now, rain :: now - startTime <= NoPowerSeconds ==> !NoPowerDue(s.(rainLast24h := rain), now)
  {
    State(None, startTime, false, false, DatetimeMin, DatetimeMin, 0.0)
  }

  // ---------------------------------------------------------------- inputs

  /** What `dev.update()` followed by reading `power_mw` gave. */
  datatype DeviceReading = PowerReading(powerMw: int) | DeviceError

  /** The answer a weather query would give if it were made this tick. */
  datatype Query<+T> = Answered(value: T) | QueryFailed

  /** The parsed 24-hour answer: summed rainfall and latest soil moisture. */
  datatype HourlyWeather = HourlyWeather(rainMm: real, soil: SoilMoisture)

  /**
   * Everything the outside world contributes to one tick: the clock, the
   * plug, both weather queries and whether `dev.turn_off()` would succeed.
   */
  datatype TickInputs = TickInputs(
    now: int,
    device: DeviceReading,
    hourly: Query<HourlyWeather>,
    weekly: Query<real>,
    turnOffSucceeds: bool)

  /** The device's reading converted to watts. */
  function PowerWatts(powerMw: int): (watts: real)
    ensures watts * 1000.0 == powerMw as real
  {
    powerMw as real / 1000.0
  }

  /** The strict activation test: exactly 0.005 W (5 mW) counts as idle. */
  function AboveThreshold(powerMw: int): (running: bool)
    ensures running <==> powerMw > 5
  {
    PowerWatts(powerMw) > PowerThresholdWatts
  }

  /** The tick reads a power value at or below the threshold. */
  predicate IdleReading(inp: TickInputs) {
    inp.device.PowerReading? && !AboveThreshold(inp.device.powerMw)
  }

  /** The tick reads a power value above the threshold. */
  predicate ActiveReading(inp: TickInputs) {
    inp.device.PowerReading? && AboveThreshold(inp.device.powerMw)
  }

  // --------------------------------------------------------------- effects

  datatype Alert =
    | PowerDrawDetected(watts: real)
    | LongRunTurningOff
    | NoDrawDespiteRain(rainMm: real)
    | LawnWatering(rain7DaysMm: real)

  datatype AlertKind = DrawAlert | LongRunAlert | NoDrawAlert | LawnAlert

  /** One observable action of a tick, in the order the tick performs them. */
  datatype Effect =
    | SendAlert(alert: Alert)
    | LogPower(time: int, watts: real)
    | LogRain(row: WeatherSnapshot)
    | TurnOff
  {
    function Kind(): EffectKind {
      match this
      case SendAlert(PowerDrawDetected(_)) => AlertSent(DrawAlert)
      case SendAlert(LongRunTurningOff) => AlertSent(LongRunAlert)
      case SendAlert(NoDrawDespiteRain(_)) => AlertSent(NoDrawAlert)
      case SendAlert(LawnWatering(_)) => AlertSent(LawnAlert)
      case LogPower(_, _) => PowerRowLogged
      case LogRain(_) => RainRowLogged
      case TurnOff => TurnOffCommanded
    }
  }

  datatype EffectKind = AlertSent(AlertKind) | PowerRowLogged | RainRowLogged | TurnOffCommanded

  /** Some effect of kind `k` occurs among `effects`. */
  predicate Emits(effects: seq<Effect>, k: EffectKind) {
    exists i :: 0 <= i < |effects| && effects[i].Kind() == k
  }

  /** No kind of effect occurs twice. */
  predicate DistinctKinds(effects: seq<Effect>) {
    forall i, j :: 0 <= i < j < |effects| ==> effects[i].Kind() != effects[j].Kind()
  }

  /** The kinds occurring in a concatenation are those of its parts. */
  lemma {:induction false} EmitsConcat(a: seq<Effect>, b: seq<Effect>, k: EffectKind)
    ensures Emits(a + b, k) <==> Emits(a, k) || Emits(b, k)
  {
    if Emits(a + b, k) {
      var i :| 0 <= i < |a + b| && (a + b)[i].Kind() == k;
      if i >= |a| {
        assert b[i - |a|] == (a + b)[i];
      }
    }
    if Emits(a, k) {
      var j :| 0 <= j < |a| && a[j].Kind() == k;
      assert (a + b)[j] == a[j];
    }
    if Emits(b, k) {
      var j :| 0 <= j < |b| && b[j].Kind() == k;
      assert (a + b)[|a| + j] == b[j];
    }
  }

  /** An effect that occurs makes its kind occur. */
  lemma {:induction false} EmitsMember(effects: seq<Effect>, x: Effect)
    requires x in effects
    ensures Emits(effects, x.Kind())
  {
    var i :| 0 <= i < |effects| && effects[i] == x;
  }

  /** Gluing two kind-disjoint lists without repeated kinds repeats none. */
  lemma {:induction false} DistinctConcat(a: seq<Effect>, b: seq<Effect>)
    requires DistinctKinds(a) && DistinctKinds(b)
    requires forall i, j :: 0 <= i < |a| && 0 <= j < |b| ==> a[i].Kind() != b[j].Kind()
    ensures DistinctKinds(a + b)
  {
    forall i, j | 0 <= i < j < |a + b|
      ensures (a + b)[i].Kind() != (a + b)[j].Kind()
    {
      if j < |a| {
      } else if i < |a| {
        assert (a + b)[j] == b[j - |a|];
      } else {
        assert (a + b)[i] == b[i - |a|] && (a + b)[j] == b[j - |a|];
      }
    }
  }

  // ---------------------------------------------------------------- result

  /** Where an aborted tick raised its exception. */
  datatype Failure =
    | DeviceFailed          // dev.update() or the power_mw lookup raised
    | HourlyUnpackFailed    // the failed 24-hour query's 0.0 cannot be unpacked
    | TurnOffFailed         // dev.turn_off() raised

  datatype Outcome = Completed | Aborted(cause: Failure)

  datatype TickResult = TickResult(state: State, effects: seq<Effect>, outcome: Outcome)

  // -------------------------------------------------------- weather checks

  /** What `get_rainfall_last_24h` hands back: a six-tuple, or a bare float. */
  datatype HourlyReturn = SixTuple(weather: HourlyWeather) | Scalar(x: real)

  /** A failed 24-hour query returns the scalar 0.0 instead of a tuple. */
  function GetRainfallLast24h(q: Query<HourlyWeather>): (v: HourlyReturn)
    ensures v.SixTuple? <==> q.Answered?
    ensures v.Scalar? ==> v.x == 0.0
  {
    match q
    case Answered(w) => SixTuple(w)
    case QueryFailed => Scalar(0.0)
  }

  /** Unpacking into six names: a scalar raises, so the result is None. */
  function Unpack(v: HourlyReturn): (unpacked: Option<HourlyWeather>)
    ensures unpacked.None? <==> v.Scalar?
  {
    match v
    case SixTuple(w) => Some(w)
    case Scalar(_) => None
  }

  /** A failed 7-day query returns 0.0, indistinguishable from a dry week. */
  function GetRainfallLast7Days(q: Query<real>): (total: real)
    ensures q.Answered? ==> total == q.value
    ensures q.QueryFailed? ==> total == 0.0
  {
    match q
    case Answered(total) => total
    case QueryFailed => 0.0
  }

  /**
   * A 24-hour answer survives the return and the unpacking unchanged; only a
   * failed query makes the unpacking raise.
   */
  lemma {:induction false} HourlyAnswerUnpacks(q: Query<HourlyWeather>)
    ensures Unpack(GetRainfallLast24h(q)) == if q.Answered? then Some(q.value) else None
  {
  }

  /**
   * The hourly rainfall refresh. When due it queries; a failure aborts the
   * tick before anything is assigned, so the check time is not advanced and
   * the next tick asks again.
   */
  function HourlyCheck(s: State, now: int, q: Query<HourlyWeather>): (r: TickResult)
    ensures r.outcome.Aborted? <==> HourlyDue(s, now) && q.QueryFailed?
    ensures r.outcome.Aborted? ==> r.outcome.cause == HourlyUnpackFailed
    ensures r.outcome.Aborted? || !HourlyDue(s, now) ==> r.state == s && r.effects == []
    ensures HourlyDue(s, now) && q.Answered? ==>
      && r.state == s.(rainLast24h := q.value.rainMm, lastRainCheckTime := now)
      && r.effects == [LogRain(WeatherSnapshot(now, q.value.rainMm, q.value.soil))]
    ensures r.outcome.Completed? ==> !HourlyDue(r.state, now)
    ensures forall i :: 0 <= i < |r.effects| ==> r.effects[i].Kind() == RainRowLogged
  {
    if !HourlyDue(s, now) then
      TickResult(s, [], Completed)
    else
      match Unpack(GetRainfallLast24h(q))
      case None => TickResult(s, [], Aborted(HourlyUnpackFailed))
      case Some(w) =>
        TickResult(s.(rainLast24h := w.rainMm, lastRainCheckTime := now),
                   [LogRain(WeatherSnapshot(now, w.rainMm, w.soil))],
                   Completed)
  }

  /**
   * The daily 7-day rainfall check. It never aborts: a failed query reads as
   * 0.0 mm and so raises the lawn alert. The check time is always advanced.
   */
  function DailyCheck(s: State, now: int, q: Query<real>): (r: TickResult)
    ensures r.outcome == Completed
    ensures !DailyDue(s, now) ==> r.state == s && r.effects == []
    ensures DailyDue(s, now) ==> r.state == s.(lastWeeklyRainCheckTime := now)
    ensures Emits(r.effects, AlertSent(LawnAlert)) ==> DailyDue(s, now)
    ensures forall i :: 0 <= i < |r.effects| ==> r.effects[i].Kind() == AlertSent(LawnAlert)
    ensures |r.effects| <= 1
    ensures DailyDue(s, now) ==>
      r.effects == (if GetRainfallLast7Days(q) < LawnAlertThresholdMm
                    then [SendAlert(LawnWatering(GetRainfallLast7Days(q)))] else [])
  {
    if !DailyDue(s, now) then
      TickResult(s, [], Completed)
    else
      var total := GetRainfallLast7Days(q);
      var alerts := if total < LawnAlertThresholdMm then [SendAlert(LawnWatering(total))] else [];
      TickResult(s.(lastWeeklyRainCheckTime := now), alerts, Completed)
  }

  // ---------------------------------------------------------- power logic

  /**
   * The run/idle state machine fed one power reading. `turnOffSucceeds` says
   * whether `dev.turn_off()` would return normally if it were called.
   */
  function PowerCheck(s: State, now: int, powerMw: int, turnOffSucceeds: bool): (r: TickResult)
    // only a failed turn-off aborts, and then no tracker has been assigned
    ensures r.outcome.Aborted? <==> AboveThreshold(powerMw) && LongRunDue(s, now) && !turnOffSucceeds
    ensures r.outcome.Aborted? ==> r.outcome.cause == TurnOffFailed && r.state == s
    // the weather trackers are not this step's business
    ensures && r.state.rainLast24h == s.rainLast24h
            && r.state.lastRainCheckTime == s.lastRainCheckTime
            && r.state.lastWeeklyRainCheckTime == s.lastWeeklyRainCheckTime
    // a reading above threshold is logged first, and only such a reading
    ensures AboveThreshold(powerMw) ==> |r.effects| > 0 && r.effects[0] == LogPower(now, PowerWatts(powerMw))
    ensures Emits(r.effects, PowerRowLogged) ==> AboveThreshold(powerMw)
    // the start of a run
    ensures AboveThreshold(powerMw) && s.powerOnStart.None? ==>
      && r.state.powerOnStart == Some(now)
      && r.effects == [LogPower(now, PowerWatts(powerMw)), SendAlert(PowerDrawDetected(PowerWatts(powerMw)))]
    ensures Emits(r.effects, AlertSent(DrawAlert)) ==> AboveThreshold(powerMw) && s.powerOnStart.None?
    ensures AboveThreshold(powerMw) && s.powerOnStart.Some? ==> r.state.powerOnStart == s.powerOnStart
    // the long-run cut-off
    ensures SendAlert(LongRunTurningOff) in r.effects <==> AboveThreshold(powerMw) && LongRunDue(s, now)
    ensures AboveThreshold(powerMw) && LongRunDue(s, now) ==>
      r.effects == [LogPower(now, PowerWatts(powerMw)), SendAlert(LongRunTurningOff), TurnOff]
    ensures AboveThreshold(powerMw) && s.powerOnStart.Some? && !LongRunDue(s, now) ==>
      r.effects == [LogPower(now, PowerWatts(powerMw))]
    ensures TurnOff in r.effects <==> AboveThreshold(powerMw) && LongRunDue(s, now)
    ensures Emits(r.effects, AlertSent(LongRunAlert)) || Emits(r.effects, TurnOffCommanded) ==>
      AboveThreshold(powerMw) && LongRunDue(s, now)
    ensures AboveThreshold(powerMw) && r.outcome.Completed? ==>
      r.state.alertedLongPower == (s.alertedLongPower || LongRunDue(s, now))
    // a completed active tick records the draw and re-arms the no-draw alert
    ensures AboveThreshold(powerMw) && r.outcome.Completed? ==>
      r.state.lastPowerTime == now && !r.state.alertedNoPower && r.state.powerOnStart.Some?
    // an idle tick closes the run, whatever the state was
    ensures !AboveThreshold(powerMw) ==>
      && r.state.powerOnStart.None?
      && !r.state.alertedLongPower
      && r.state.lastPowerTime == s.lastPowerTime
    // the no-draw-despite-rain alert, and its latch
    ensures !AboveThreshold(powerMw) ==>
      (SendAlert(NoDrawDespiteRain(s.rainLast24h)) in r.effects <==> NoPowerDue(s, now))
    ensures Emits(r.effects, AlertSent(NoDrawAlert)) ==> !AboveThreshold(powerMw) && NoPowerDue(s, now)
    ensures !AboveThreshold(powerMw) ==> r.state.alertedNoPower == (s.alertedNoPower || NoPowerDue(s, now))
    ensures !AboveThreshold(powerMw) ==> |r.effects| <= 1
    ensures DistinctKinds(r.effects)
    ensures forall i :: 0 <= i < |r.effects| ==> !WeatherKind(r.effects[i].Kind())
    ensures Inv(s) ==> Inv(r.state)
  {
    var watts := PowerWatts(powerMw);
    if watts > PowerThresholdWatts then
      var logged := [LogPower(now, watts)];
      if s.powerOnStart.None? then
        TickResult(s.(powerOnStart := Some(now), lastPowerTime := now, alertedNoPower := false),
                   logged + [SendAlert(PowerDrawDetected(watts))],
                   Completed)
      else if now - s.powerOnStart.value > LongRunSeconds && !s.alertedLongPower then
        var cutOff := logged + [SendAlert(LongRunTurningOff), TurnOff];
        if turnOffSucceeds then
          TickResult(s.(alertedLongPower := true, lastPowerTime := now, alertedNoPower := false),
                     cutOff, Completed)
        else
          TickResult(s, cutOff, Aborted(TurnOffFailed))
      else
        TickResult(s.(lastPowerTime := now, alertedNoPower := false), logged, Completed)
    else
      var closed := s.(powerOnStart := None, alertedLongPower := false);
      if now - s.lastPowerTime > NoPowerSeconds && !s.alertedNoPower
         && s.rainLast24h >= RainAlertThresholdMm then
        TickResult(closed.(alertedNoPower := true),
                   [SendAlert(NoDrawDespiteRain(s.rainLast24h))],
                   Completed)
      else
        TickResult(closed, [], Completed)
  }

  // ------------------------------------------------------------ the tick

  /** The weather part of a tick gets through: no due hourly query failed. */
  predicate WeatherCompletes(s: State, inp: TickInputs) {
    !(HourlyDue(s, inp.now) && inp.hourly.QueryFailed?)
  }

  /** The tick gets past the device read and the hourly refresh. */
  predicate ReachesPowerLogic(s: State, inp: TickInputs) {
    inp.device.PowerReading? && WeatherCompletes(s, inp)
  }

  /** The cached rainfall once the weather part of the tick has run. */
  function RainSeen(s: State, inp: TickInputs): (rain: real)
    requires WeatherCompletes(s, inp)
  {
    if HourlyDue(s, inp.now) then inp.hourly.value.rainMm else s.rainLast24h
  }

  /** An effect the weather part of a tick may produce. */
  predicate WeatherKind(k: EffectKind) {
    k == RainRowLogged || k == AlertSent(LawnAlert)
  }

  /** How the effects of the weather part and the power part combine. */
  lemma {:induction false} WeatherThenPower(weather: seq<Effect>, power: seq<Effect>)
    requires DistinctKinds(weather) && DistinctKinds(power)
    requires forall i :: 0 <= i < |weather| ==> WeatherKind(weather[i].Kind())
    requires forall i :: 0 <= i < |power| ==> !WeatherKind(power[i].Kind())
    ensures DistinctKinds(weather + power)
    ensures forall k :: Emits(weather + power, k) <==> Emits(weather, k) || Emits(power, k)
  {
    DistinctConcat(weather, power);
    forall k ensures Emits(weather + power, k) <==> Emits(weather, k) || Emits(power, k) {
      EmitsConcat(weather, power, k);
    }
  }

  /**
   * The hourly check and then the daily check. A failed hourly query ends the
   * tick before the daily check is looked at.
   */
  function WeatherChecks(s: State, inp: TickInputs): (r: TickResult)
    ensures !WeatherCompletes(s, inp) ==> r == TickResult(s, [], Aborted(HourlyUnpackFailed))
    ensures WeatherCompletes(s, inp) ==>
      && r.outcome.Completed?
      && r.state == s.(rainLast24h := RainSeen(s, inp),
                       lastRainCheckTime := if HourlyDue(s, inp.now) then inp.now else s.lastRainCheckTime,
                       lastWeeklyRainCheckTime :=
                         if DailyDue(s, inp.now) then inp.now else s.lastWeeklyRainCheckTime)
    ensures Emits(r.effects, RainRowLogged) ==> HourlyDue(s, inp.now)
    ensures WeatherCompletes(s, inp) && HourlyDue(s, inp.now) ==>
      LogRain(WeatherSnapshot(inp.now, inp.hourly.value.rainMm, inp.hourly.value.soil)) in r.effects
    ensures Emits(r.effects, AlertSent(LawnAlert)) ==>
      DailyDue(s, inp.now) && GetRainfallLast7Days(inp.weekly) < LawnAlertThresholdMm
    ensures WeatherCompletes(s, inp) && DailyDue(s, inp.now)
            && GetRainfallLast7Days(inp.weekly) < LawnAlertThresholdMm ==>
      SendAlert(LawnWatering(GetRainfallLast7Days(inp.weekly))) in r.effects
    ensures DistinctKinds(r.effects)
    ensures forall i :: 0 <= i < |r.effects| ==> WeatherKind(r.effects[i].Kind())
    // the rain row, when there is one, comes before the lawn alert
    ensures forall i, j :: 0 <= i < j < |r.effects| ==>
      r.effects[i].Kind() == RainRowLogged && r.effects[j].Kind() == AlertSent(LawnAlert)
  {
    var hourly := HourlyCheck(s, inp.now, inp.hourly);
    if hourly.outcome.Aborted? then hourly
    else
      var daily := DailyCheck(hourly.state, inp.now, inp.weekly);
      DistinctConcat(hourly.effects, daily.effects);
      EmitsConcat(hourly.effects, daily.effects, RainRowLogged);
      EmitsConcat(hourly.effects, daily.effects, AlertSent(LawnAlert));
      TickResult(daily.state, hourly.effects + daily.effects, Completed)
  }

  /**
   * One pass of the `while True` body: read the plug, refresh the weather
   * when due, then run the power logic on the reading.
   */
  function Step(s: State, inp: TickInputs): (r: TickResult)
    // a device failure is a tick that did nothing
    ensures inp.device.DeviceError? ==> r == TickResult(s, [], Aborted(DeviceFailed))
    // a due, failing hourly query is also a tick that did nothing
    ensures inp.device.PowerReading? && HourlyDue(s, inp.now) && inp.hourly.QueryFailed? ==>
      r == TickResult(s, [], Aborted(HourlyUnpackFailed))
    ensures r.outcome.Completed? || r.outcome == Aborted(TurnOffFailed) <==> ReachesPowerLogic(s, inp)
    // an aborted tick leaves the run/idle trackers and both latches alone
    ensures r.outcome.Aborted? ==>
      && r.state.powerOnStart == s.powerOnStart
      && r.state.lastPowerTime == s.lastPowerTime
      && r.state.alertedLongPower == s.alertedLongPower
      && r.state.alertedNoPower == s.alertedNoPower
    // weather trackers once the weather part has run
    ensures ReachesPowerLogic(s, inp) ==>
      && r.state.rainLast24h == RainSeen(s, inp)
      && r.state.lastRainCheckTime == (if HourlyDue(s, inp.now) then inp.now else s.lastRainCheckTime)
      && r.state.lastWeeklyRainCheckTime == (if DailyDue(s, inp.now) then inp.now else s.lastWeeklyRainCheckTime)
    // rain rows
    ensures Emits(r.effects, RainRowLogged) ==> ReachesPowerLogic(s, inp) && HourlyDue(s, inp.now)
    ensures ReachesPowerLogic(s, inp) && HourlyDue(s, inp.now) ==>
      LogRain(WeatherSnapshot(inp.now, inp.hourly.value.rainMm, inp.hourly.value.soil)) in r.effects
    // lawn alert
    ensures Emits(r.effects, AlertSent(LawnAlert)) ==>
      && ReachesPowerLogic(s, inp) && DailyDue(s, inp.now)
      && GetRainfallLast7Days(inp.weekly) < LawnAlertThresholdMm
    // power rows
    ensures Emits(r.effects, PowerRowLogged) ==> ReachesPowerLogic(s, inp) && ActiveReading(inp)
    // the weather part's effects all come before the power part's
    ensures forall i, j :: 0 <= i < j < |r.effects| && WeatherKind(r.effects[j].Kind()) ==>
      WeatherKind(r.effects[i].Kind())
    ensures ReachesPowerLogic(s, inp) && DailyDue(s, inp.now)
            && GetRainfallLast7Days(inp.weekly) < LawnAlertThresholdMm ==>
      SendAlert(LawnWatering(GetRainfallLast7Days(inp.weekly))) in r.effects
    // latches survive any tick that does not end their episode
    ensures s.alertedLongPower && !IdleReading(inp) ==> r.state.alertedLongPower
    ensures s.powerOnStart.Some? && !IdleReading(inp) ==> r.state.powerOnStart == s.powerOnStart
    ensures s.alertedNoPower && !ActiveReading(inp) ==> r.state.alertedNoPower
    ensures DistinctKinds(r.effects)
    ensures Inv(s) ==> Inv(r.state)
  {
    match inp.device
    case DeviceError => TickResult(s, [], Aborted(DeviceFailed))
    case PowerReading(powerMw) =>
      var weather := WeatherChecks(s, inp);
      if weather.outcome.Aborted? then weather
      else
        var power := PowerCheck(weather.state, inp.now, powerMw, inp.turnOffSucceeds);
        WeatherThenPower(weather.effects, power.effects);
        TickResult(power.state, weather.effects + power.effects, power.outcome)
  }

  /**
   * A tick whose reading is above the threshold: it logs the reading, opens
   * a run if none is open and then sends the draw alert, and records the
   * draw when it completes.
   */
  lemma {:induction false} StepActive(s: State, inp: TickInputs)
    requires ReachesPowerLogic(s, inp) && ActiveReading(inp)
    ensures var r := Step(s, inp);
      && LogPower(inp.now, PowerWatts(inp.device.powerMw)) in r.effects
      && (s.powerOnStart.None? ==>
            && SendAlert(PowerDrawDetected(PowerWatts(inp.device.powerMw))) in r.effects
            && r.state.powerOnStart == Some(inp.now)
            && r.outcome.Completed?
            && r.state.alertedLongPower == s.alertedLongPower)
      && (r.outcome.Completed? ==> r.state.lastPowerTime == inp.now && !r.state.alertedNoPower)
      && (r.outcome.Completed? ==> r.state.alertedLongPower == (s.alertedLongPower || LongRunDue(s, inp.now)))
      && (r.outcome.Completed? <==> !LongRunDue(s, inp.now) || inp.turnOffSucceeds)
  {
  }

  /** Only the first active tick of a run sends the draw alert. */
  lemma {:induction false} StepDrawAlert(s: State, inp: TickInputs)
    ensures Emits(Step(s, inp).effects, AlertSent(DrawAlert)) ==>
      ReachesPowerLogic(s, inp) && ActiveReading(inp) && s.powerOnStart.None?
  {
  }

  /**
   * The long-run alert and the turn-off command go together, are sent by
   * exactly the active ticks of an overlong, unlatched run, and latch when
   * the tick completes.
   */
  lemma {:induction false} StepLongRun(s: State, inp: TickInputs)
    ensures var r := Step(s, inp);
      && (Emits(r.effects, AlertSent(LongRunAlert)) || Emits(r.effects, TurnOffCommanded) ==>
            ReachesPowerLogic(s, inp) && ActiveReading(inp) && LongRunDue(s, inp.now))
      && (ReachesPowerLogic(s, inp) && ActiveReading(inp) && LongRunDue(s, inp.now) ==>
            SendAlert(LongRunTurningOff) in r.effects && TurnOff in r.effects)
      && (r.outcome == Aborted(TurnOffFailed) ==> !inp.turnOffSucceeds)
      && (r.outcome.Completed? && Emits(r.effects, AlertSent(LongRunAlert)) ==> r.state.alertedLongPower)
  {
  }

  /**
   * A tick whose reading is at or below the threshold closes any run and
   * sends the no-draw alert exactly when six hours have passed since the
   * last draw, the alert is not latched and the rainfall cached after this
   * tick's weather refresh is at least 10 mm.
   */
  lemma {:induction false} StepIdle(s: State, inp: TickInputs)
    ensures var r := Step(s, inp);
      && (ReachesPowerLogic(s, inp) && IdleReading(inp) ==>
            && r.state.powerOnStart.None?
            && !r.state.alertedLongPower
            && r.state.lastPowerTime == s.lastPowerTime
            && r.state.alertedNoPower ==
                 (s.alertedNoPower || (inp.now - s.lastPowerTime > NoPowerSeconds
                                       && RainSeen(s, inp) >= RainAlertThresholdMm)))
      && (Emits(r.effects, AlertSent(NoDrawAlert)) ==>
            && ReachesPowerLogic(s, inp) && IdleReading(inp)
            && inp.now - s.lastPowerTime > NoPowerSeconds && !s.alertedNoPower
            && RainSeen(s, inp) >= RainAlertThresholdMm
            && r.state.alertedNoPower)
      && (ReachesPowerLogic(s, inp) && IdleReading(inp)
          && inp.now - s.lastPowerTime > NoPowerSeconds && !s.alertedNoPower
          && RainSeen(s, inp) >= RainAlertThresholdMm ==>
            SendAlert(NoDrawDespiteRain(RainSeen(s, inp))) in r.effects)
  {
  }
}
