# Sump-pump monitor: a Dafny model

This project models the core of a sump-pump monitor. The monitor polls a
smart plug once a second and refreshes rainfall and soil-moisture readings on
two timers. It sends alerts when:

- the pump starts;
- the pump runs longer than a minute (it also switches the plug off);
- the pump stays silent for six hours despite heavy rain;
- the past week was too dry for the lawn.

An offline script turns the power log into a regression dataset. It has one
row per pair of consecutive pump runs, holding the time between them and the
mean soil moisture logged in between.

The model has three parts:

- **One tick of the monitoring loop** (`monitor.dfy`, module `Monitor`).
  - The tick is a pure function `Step(state, inputs)`. It returns the new
    trackers, the ordered list of effects the tick produced (alerts sent,
    power and rain rows logged, turn-off commands) and whether the tick ran
    to the end or stopped at an exception.
  - The inputs are the clock, the plug reading, the answers of the two
    weather queries and whether the turn-off command would succeed.
  - `Step` is built from `HourlyCheck`, `DailyCheck` and `PowerCheck`, in the
    order the loop body runs them.
- **Finite runs of ticks** (`trace.dfy`, module `Trace`).
  - `Run` applies `Step` to a sequence of inputs.
  - The lemmas count alerts over a run: at most once per episode, exactly
    once in concrete scenarios, and a weather outage that freezes the
    monitor.
- **Building the dataset**:
  - `segmentation.dfy` (module `Segmentation`) covers the new-run flags, run
    ids and run starts;
  - `dataset.dfy` (module `Dataset`) covers the interval selection, skipping
    empty intervals, the soil-moisture means and the row-building loop.

Supporting files:

- `wrappers.dfy` has `Option`.
- `telemetry.dfy` has the soil-moisture record and the logged weather row.

Conventions:

- Time is whole seconds from `datetime.min`, which is 0.
- The plug reports integer milliwatts, and watts are `mw / 1000` as a real.
  The activation test is strict, so 5 mW (exactly 0.005 W) counts as idle.
- Rainfall, soil moisture and the rain thresholds are reals.

## How exceptions are modelled

Each tick of the loop runs inside one `try`. An exception ends the tick where
it is raised:

- global trackers assigned before that point keep their new values;
- later assignments never happen;
- effects already produced (alerts pushed, rows written) stay produced.

`TickResult.outcome` says whether the tick completed or where it stopped.
Three exceptions are modelled:

- **The plug read fails** (`DeviceFailed`). Nothing has happened yet.
- **A due 24-hour weather query fails** (`HourlyUnpackFailed`). The query
  function then returns the bare float `0.0` instead of a six-tuple. Unpacking
  that into six names raises before any tracker is assigned.
- **`dev.turn_off()` raises** (`TurnOffFailed`). The power row and the
  long-run alert are already out, and the weather refresh earlier in the tick
  has already updated its trackers. The long-run latch is never set.

## Failure behaviour

Four consequences of how the loop body is written:

- **Turn-off failure.** `alerted_long_power` is assigned only after
  `dev.turn_off()` returns (main.py:159-162). While the command keeps raising,
  the long-run alert and another turn-off attempt therefore repeat on every
  later tick of the overlong run that reads the plug as drawing and whose
  24-hour query is answered (`Trace.LongRunRepeatsWhileTurnOffFails`). A tick
  whose plug read raises, or whose due hourly query fails, sends neither.
- **Failed 24-hour query.** The query returns a bare `0.0`, and unpacking it
  raises before `last_rain_check_time` is assigned (main.py:87-89, 137-139).
  The whole tick aborts and the hourly timer stays where it was. While the
  weather service is down, every tick therefore aborts before the power
  logic once the hourly query is due, that is from 3600 s after the last
  successful query: no power row is logged, no alert is sent and no overlong run is cut
  off (`Trace.WeatherOutageSuspendsMonitoring`). The cached rainfall keeps its
  value (`Trace.FailedQueriesKeepCachedRain`).
- **Tick order.** Both weather checks run before the power logic
  (main.py:137-175), so the no-draw alert uses rainfall refreshed in the same
  tick (`Monitor.StepIdle` states it through `RainSeen`).
- **Failed 7-day query.** It returns `0.0` mm (main.py:105-107). Since that
  is below 38.1 mm, it raises the lawn alert (`Monitor.GetRainfallLast7Days`
  and `Monitor.DailyCheck`).

## Model

| member | source | states |
|---|---|---|
| Monitor.Init | main.py:30-36 | The start-up trackers are idle with no latch set and satisfy the latch invariant. The last draw is dated at start-up, no rain is cached, and both weather checks are dated `datetime.min`, so both are due on the first tick (any time more than a day after `datetime.min`). Whatever rainfall is cached later, no no-draw alert can be due during the first six hours. |
| Monitor.PowerWatts | main.py:133 | The watts value times 1000 is the plug's milliwatt reading. |
| Monitor.AboveThreshold | main.py:154 | A reading counts as running exactly when it is above 5 mW: the strict `> 0.005` W test, stated in milliwatts. |
| Monitor.GetRainfallLast24h | main.py:86-89 | An answered 24-hour query returns the six-tuple, and a failed one returns the bare scalar `0.0`. |
| Monitor.Unpack | main.py:138 | Unpacking into six names fails exactly on a scalar. |
| Monitor.HourlyAnswerUnpacks | main.py:138 | An answered query's values come through the return and the unpacking unchanged, and a failed query's unpacking fails. |
| Monitor.GetRainfallLast7Days | main.py:103-107 | An answered 7-day query gives its total, and a failed one gives `0.0`. |
| Monitor.HourlyCheck | main.py:137-140 | The check runs iff more than 3600 s have passed since the last successful one. When it runs, the tick aborts iff the query failed, and an abort changes nothing. On success, the cached rainfall and the check time are updated, exactly one weather row is logged, and nothing else changes. |
| Monitor.DailyCheck | main.py:147-151 | The check runs iff more than 86400 s have passed, never aborts, and always advances its timer when it runs. When it runs, its effects are exactly one lawn alert carrying the 7-day total if that total is below 38.1 mm, and nothing otherwise; any lawn alert implies a low total. A failed query counts as 0.0 mm and so raises the alert. |
| Monitor.PowerCheck | main.py:154-175 | An above-threshold reading is logged first. While idle, it opens a run at `now`, and its effects are exactly the power row and then the draw alert. During a run, the long-run alert and the turn-off are sent exactly when the run has lasted over 60 s unlatched, and then latch; the effects are then exactly the power row, the alert and the turn-off, in that order, and otherwise only the power row. An idle reading produces at most one effect. The tick aborts exactly when that turn-off fails, and the state is unchanged. A completed active tick records the draw and re-arms the no-draw alert. An idle reading closes any run and clears the long-run latch. The no-draw alert is sent iff six hours have passed, it is unlatched and the cached rain is at least 10 mm; sending it latches. No effect kind repeats, the weather trackers are untouched, and the latch invariant is preserved. |
| Monitor.WeatherChecks | main.py:137-151 | The weather part of a tick aborts exactly when a due hourly query fails, and then changes nothing. Otherwise the trackers are updated as both timers dictate. A rain row appears only when the hourly check was due, and appears whenever it ran. The lawn alert appears only when the daily check was due and the 7-day total is below 38.1 mm. When the weather part gets through (no due hourly query failed) and both hold, it appears carrying that total. The rain row, when there is one, comes before the lawn alert. |
| Monitor.Step | main.py:131-177 | A failed plug read, and a due failing hourly query, are ticks that change nothing and emit nothing. The power logic is reached iff neither happened. An aborted tick leaves the run/idle trackers and both latches alone. Once the power logic is reached, the weather trackers are as the weather checks leave them. A rain row is logged only by, and always by, a tick that reaches the power logic with the hourly check due; it holds the tick's time, the rainfall and the soil moisture. A lawn alert is sent only when the daily check was due and the 7-day total is below 38.1 mm. When the tick reaches the power logic (the plug read worked and no due hourly query failed) and both hold, it is sent. A power row is logged only by an active tick that reaches the power logic. All weather effects come before all power effects. Each latch survives every tick that does not end its episode. No effect kind repeats, and the latch invariant is preserved. |
| Monitor.StepActive | main.py:154-165 | An active tick that reaches the power logic logs the reading. From idle, it sends the draw alert, opens the run at `now` and completes. It completes iff no cut-off is due or the turn-off succeeds. When it completes, it records `now` as the last draw, clears the no-draw latch and sets the long-run latch iff a cut-off was due. |
| Monitor.StepDrawAlert | main.py:156-158 | The draw alert is sent only by an active tick that reaches the power logic while no run is open. |
| Monitor.StepLongRun | main.py:159-162 | The long-run alert and the turn-off are sent only by, and always by, an active tick that reaches the power logic (the plug read worked and no due hourly query failed) inside a run that has lasted over 60 s unlatched. An abort at this point means the turn-off failed. A completed tick that sent the alert leaves it latched. |
| Monitor.StepIdle | main.py:166-175 | An idle tick that reaches the power logic closes the run, clears the long-run latch and keeps the last-draw time. It latches the no-draw alert iff it was already latched or (silence over 6 h and rain just seen at least 10 mm). The alert is sent under exactly that condition, when unlatched. |
| Trace.RunWithConcat | main.py:130-178 | Running one sequence of ticks and then another, through any tick function, is running their concatenation: the second starts from the state the first left, and the effects follow one another. |
| Trace.RunConcat | main.py:130-178 | The same law for the monitor's own tick: `Run(s, a + b)` ends where `Run` of `b` from `Run(s, a)`'s final state ends, with the two effect lists joined. |
| Trace.RunPreservesInv | main.py:154-175 | Over any run of ticks, the long-run latch is up only during a run and the no-draw latch only between runs. |
| Trace.LongRunAtMostOncePerRun | main.py:159-162 | While no idle reading ends the run and turn-offs succeed, the long-run alert and the turn-off each happen at most once, and not at all once latched. |
| Trace.FailedCutOffTick | main.py:159-162 | An active tick of an overlong, unlatched run that gets through the weather part (no due hourly query failed) and whose turn-off fails sends the alert and the turn-off once each, aborts, and leaves the run open and the latch down. |
| Trace.LongRunRepeatsWhileTurnOffFails | main.py:159-162 | While the turn-off keeps failing, every tick of an overlong run that reads the plug as drawing and has its 24-hour query answered sends the long-run alert and a turn-off, and the latch never goes up. |
| Trace.NoDrawAlertAtMostOncePerSilence | main.py:170-175 | While no reading is above the threshold, the no-draw alert is sent at most once, and not at all once latched. |
| Trace.LawnAlertAtMostOncePerDay | main.py:147-151 | Within any 24-hour window, the lawn alert is sent at most once, and not at all if the daily check already ran inside the window. |
| Trace.WeatherOutageSuspendsMonitoring | main.py:137-140 | While the hourly query is due and keeps failing, a run of ticks changes no tracker and produces no effect. |
| Trace.FailedQueriesKeepCachedRain | main.py:87-89 | If every 24-hour query fails, the cached rainfall keeps its value and no weather row is logged. |
| Trace.ActiveTickInRun | main.py:156-162 | An active tick inside an open run that gets through the weather part (no due hourly query failed), with a working turn-off, keeps the run's start. It sends no draw alert, and sends the long-run alert and turn-off once iff a cut-off was due, latching it. |
| Trace.ActiveTickFromIdle | main.py:154-158 | The active tick that opens a run, when it gets through the weather part (no due hourly query failed), sends exactly one draw alert and no long-run alert or turn-off, and leaves the long-run latch down. |
| Trace.ContinuingRun | main.py:156-162 | Draw continuing once a second through an open run, with every tick's 24-hour query answered and every turn-off succeeding, sends no draw alert. It sends the long-run alert and turn-off exactly once iff the run passes the one-minute mark unlatched. |
| Trace.SteadyDrawFromIdle | main.py:154-162 | Steady draw from idle, once a second, with every tick's 24-hour query answered and every turn-off succeeding, sends exactly one draw alert. It sends the long-run alert and turn-off exactly once iff the draw lasts over 60 s; 70 s of draw (71 ticks) does. |
| Trace.IdleTickInRain | main.py:166-175 | An idle tick whose 24-hour query is answered with at least 10 mm, starting from a cached rainfall of at least 10 mm, keeps the last-draw time and the cached rain at 10 mm or more, latches the no-draw alert iff it was latched or six hours have passed, and sends it exactly once in the latter case when unlatched. |
| Trace.SilenceInRain | main.py:170-175 | Idle ticks once a second, with at least 10 mm of rain throughout, send the no-draw alert exactly once iff the silence passes six hours unlatched. |
| Segmentation.NewRunFlags | make_dataset.py:16-17 | The first sample always starts a run. Every later sample starts one iff its gap to the previous sample exceeds 30 s. |
| Segmentation.RunsBegunMonotone | make_dataset.py:20 | The count of runs begun never decreases along the samples. |
| Segmentation.RunIds | make_dataset.py:20 | The run ids computed by a running sum start at 1, grow by exactly one at each new run and by nothing elsewhere, never decrease, and equal the running count of new-run flags. |
| Segmentation.RunHead | make_dataset.py:20 | Every sample belongs to the run begun at the last new-run flag at or before it, and has that sample's run id. |
| Segmentation.RunStarts | make_dataset.py:23-24 | Non-empty samples give at least one run, and the first run starts at the first sample. |
| Segmentation.FirstStartIsFirstSample | make_dataset.py:16-24 | The first run start is the first sample, because its gap fill of 9999 s exceeds 30 s. |
| Segmentation.StartIsRunBeginning | make_dataset.py:23 | The k-th run start is the timestamp of a sample that begins a run and has run id k+1. |
| Segmentation.StartOfRun | make_dataset.py:23 | Every sample's run id indexes the run starts, and the start found there is the first sample of that sample's run. |
| Segmentation.RunStartIsGroupMinimum | make_dataset.py:23 | For sorted samples, each run's start is a timestamp of the run and no later than any sample with the same run id: it is the group minimum. |
| Segmentation.RunStartsSpreadOut | make_dataset.py:23-24 | For sorted samples, run starts are more than 30 s apart. |
| Segmentation.RunStartsIncrease | make_dataset.py:24 | For sorted samples, the run starts strictly increase, so sorting them changes nothing. |
| Dataset.Between | make_dataset.py:34 | A weather row is selected iff it is logged after the start and no later than the end. Each row in that interval is selected as many times as it occurs in the log, and no other row at all, so repeated rows weigh in the means. The selection is no longer than the log. |
| Dataset.PairWeather | make_dataset.py:30-34 | The weather of pair `i` is exactly the rows in the half-open interval between run start `i` and run start `i + 1`, each as many times as it occurs in the log. |
| Dataset.ColumnSumBounds | make_dataset.py:47 | A column whose values lie in `[lo, hi]` sums to between `n * lo` and `n * hi`. |
| Dataset.MeanWithinBounds | make_dataset.py:47 | A column's mean lies between the column's lower and upper bounds. |
| Dataset.MeanOfConstantColumn | make_dataset.py:47 | A column holding one value throughout has that value as its mean. |
| Dataset.AverageSoil | make_dataset.py:45-47 | Each of the five `avg_soil_moisture_*` values, counted once per selected row, adds up to its column's total over the selection. |
| Dataset.AverageSoilWithinBounds | make_dataset.py:45-47 | Each average lies within any bounds that every selected row keeps in its column. |
| Dataset.PairRow | make_dataset.py:30-47 | The row of a pair runs from run start `i` to run start `i + 1`. Its duration in minutes times 60 is the gap in seconds, and it is positive when the second start is later. Each average, counted once per row of the pair's weather, adds up to that column's total. |
| Dataset.PairRowWithinBounds | make_dataset.py:30-47 | When every weather row logged after run start `i` and no later than run start `i + 1` keeps a soil-moisture column within `[lo, hi]`, the row's average of that column lies within `[lo, hi]`. |
| Dataset.CoveredSkip | make_dataset.py:36-37 | Passing over a pair with no weather in between produces no row and keeps every earlier pair accounted for. |
| Dataset.CoveredAppend | make_dataset.py:39-49 | Appending the row of the current pair keeps each row the row of some pair seen so far, and each pair with weather seen so far has its row. |
| Dataset.OrderedAppend | make_dataset.py:39-49 | Appending a row that starts at the current run start and spans a positive gap keeps the rows in start order with positive durations, all before the next run start. |
| Dataset.Extend | make_dataset.py:30-49 | One loop pass adds exactly one row when the pair has weather in between and none otherwise, keeps earlier rows, keeps every pair seen so far accounted for, and keeps the rows ordered for increasing run starts. |
| Dataset.BuildRows | make_dataset.py:29-49 | Fewer than two run starts give no rows, and otherwise at most one row per pair. Every row is the row of some pair with weather in between, and every such pair has its row. For strictly increasing starts, the rows follow the starts in order and every duration is positive. |
| Dataset.MakeDataset | make_dataset.py:14-49 | From sorted power timestamps and the weather log: for non-empty timestamps, fewer rows than runs; exactly the rows of the pairs of consecutive run starts with weather in between; in increasing start order; every duration positive. |

## Left out

- The Open-Meteo requests and JSON parsing (main.py:63-107) are left out.
  Each query is an input that either answers with numbers or fails. A
  missing key or a null rain value or 27-81 cm soil value raises inside the
  query function's `try`, so it is a failure too.
- A null value in one of the four shallower soil-moisture bands is not
  modelled. main.py:78-81 read it without error and main.py:86 returns the
  six-tuple. main.py:138-139 then assign the cached rainfall and the check
  time, and `log_rain_data` raises when it formats the null (main.py:115).
  Such a tick aborts after the two trackers moved, with no rain row, no daily
  check and no power logic. The model's answered query always carries five
  numbers, so this path cannot arise.
- The Kasa discovery and update protocol (main.py:126-133) is left out. The
  reading is an input: an integer number of milliwatts, or an error. The
  loop divides whatever number the library reports; a fractional milliwatt
  value is not modelled.
- `dev.turn_off()` (main.py:161) becomes a `TurnOff` effect plus a boolean
  input saying whether it raises.
- Pushbullet delivery and the logging setup (main.py:38-56) are left out.
  Alerts are effect records and are assumed delivered. A push that raises
  would end the tick at that point, and that path is not modelled.
- CSV writing, headers and number formatting (main.py:58-61, 109-121) are
  left out. Log rows are effect records with exact values, and a failing file
  write is not modelled.
- `datetime.now()` is not called; the start-up time is the parameter of
  `Monitor.Init` and each tick's time is an input. Sub-second timestamps are
  not modelled: times are whole seconds.
- The `while True` driver and `asyncio.sleep(1)` (main.py:130, 178) are left
  out. `Trace.Run` applies a finite sequence of ticks. The scenario lemmas
  assume ticks exactly one second apart.
- Floating-point rounding in the watt conversion, the rain sums and the
  means is not modelled; all arithmetic on reals is exact.
- pandas loading, timestamp parsing and sorting (make_dataset.py:5-12) are
  left out. `Dataset.MakeDataset` takes the power timestamps already sorted
  in whole seconds. The weather rows need no sorting: the selection and the
  means do not depend on their order.
- Saving the dataset (make_dataset.py:51-53) is left out.
- Missing values (NaN), which pandas' mean would skip, are not modelled.
- app.py, the dashboard, is outside the core and is not modelled.
- Monitor.Step: its contract says which effects a tick produces, that no
  kind repeats, and that all weather effects come before all power effects.
  The order within each part is not repeated at tick level: it is stated
  by `Monitor.WeatherChecks` (rain row, then lawn alert) and
  `Monitor.PowerCheck` (power row, then the draw alert, or the long-run
  alert and then the turn-off).
- Dataset.BuildRows: the row order is stated only for strictly increasing
  run starts. `Segmentation.RunStartsIncrease` establishes that for the run
  starts `Dataset.MakeDataset` passes in.
