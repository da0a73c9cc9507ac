/**
 * Finite runs of the monitoring loop: the ticks of the `while True` body
 * applied one after another, and what the alert latches guarantee over them.
 */
module Trace {
  import opened Wrappers
  import opened Monitor

  /** The state after a run of ticks and every effect of the run, in order. */
  datatype History = History(final: State, effects: seq<Effect>)

  /** The ticks `ins`, in order, starting from `s`. */
  function Run(s: State, ins: seq<TickInputs>): (h: History)
    decreases |ins|
  {
    if |ins| == 0 then History(s, [])
    else
      var t := Step(s, ins[0]);
      var rest := Run(t.state, ins[1..]);
      History(rest.final, t.effects + rest.effects)
  }

  /**
   * The same loop over any tick function `step`. Laws about the shape of a
   * run are proved for it, where the tick's own contract is out of view.
   */
  function RunWith(step: (State, TickInputs) -> TickResult, s: State, ins: seq<TickInputs>): (h: History)
    decreases |ins|
  {
    if |ins| == 0 then History(s, [])
    else
      var t := step(s, ins[0]);
      var rest := RunWith(step, t.state, ins[1..]);
      History(rest.final, t.effects + rest.effects)
  }

  /** Running `a` and then `b` through `step` is running `a + b`. */
  lemma {:induction false} RunWithConcat(step: (State, TickInputs) -> TickResult, s: State,
                                         a: seq<TickInputs>, b: seq<TickInputs>)
    ensures var first := RunWith(step, s, a);
      var second := RunWith(step, first.final, b);
      RunWith(step, s, a + b) == History(second.final, first.effects + second.effects)
    decreases |a|
  {
    if |a| > 0 {
      var t := step(s, a[0]);
      assert (a + b)[0] == a[0];
      assert (a + b)[1..] == a[1..] + b;
      RunWithConcat(step, t.state, a[1..], b);
      var restA := RunWith(step, t.state, a[1..]);
      var second := RunWith(step, restA.final, b);
      assert t.effects + (restA.effects + second.effects) == (t.effects + restA.effects) + second.effects;
    } else {
      assert a + b == b;
    }
  }

  /** `Run` is the loop over `Step`. */
  lemma {:induction false} RunIsRunWith(s: State, ins: seq<TickInputs>)
    ensures Run(s, ins) == RunWith(Step, s, ins)
    decreases |ins|
  {
    if |ins| > 0 {
      RunIsRunWith(Step(s, ins[0]).state, ins[1..]);
    }
  }

  /**
   * Running `a` and then `b` is running `a + b`: the second run starts from
   * the state the first one left, and the effects follow one another.
   */
  lemma {:induction false} RunConcat(s: State, a: seq<TickInputs>, b: seq<TickInputs>)
    ensures var first := Run(s, a);
      var second := Run(first.final, b);
      Run(s, a + b) == History(second.final, first.effects + second.effects)
  {
    RunIsRunWith(s, a + b);
    RunIsRunWith(s, a);
    RunIsRunWith(Run(s, a).final, b);
    RunWithConcat(Step, s, a, b);
  }

  /** How many effects of kind `k` occur among `effects`. */
  function Count(effects: seq<Effect>, k: EffectKind): (n: nat)
    ensures n <= |effects|
    ensures n == 0 <==> !Emits(effects, k)
  {
    if |effects| == 0 then 0
    else
      var rest := Count(effects[1..], k);
      assert Emits(effects[1..], k) ==> Emits(effects, k) by {
        if Emits(effects[1..], k) {
          var i :| 0 <= i < |effects[1..]| && effects[1..][i].Kind() == k;
          assert effects[i + 1] == effects[1..][i];
        }
      }
      assert Emits(effects, k) && effects[0].Kind() != k ==> Emits(effects[1..], k) by {
        if Emits(effects, k) && effects[0].Kind() != k {
          var i :| 0 <= i < |effects| && effects[i].Kind() == k;
          assert effects[1..][i - 1] == effects[i];
        }
      }
      (if effects[0].Kind() == k then 1 else 0) + rest
  }

  lemma {:induction false} CountConcat(a: seq<Effect>, b: seq<Effect>, k: EffectKind)
    ensures Count(a + b, k) == Count(a, k) + Count(b, k)
  {
    if |a| == 0 {
      assert a + b == b;
    } else {
      assert (a + b)[1..] == a[1..] + b;
      CountConcat(a[1..], b, k);
    }
  }

  /** Within a list that repeats no kind, each kind occurs at most once. */
  lemma {:induction false} CountDistinct(effects: seq<Effect>, k: EffectKind)
    requires DistinctKinds(effects)
    ensures Count(effects, k) <= 1
  {
    if |effects| > 0 {
      var rest := effects[1..];
      assert DistinctKinds(rest) by {
        forall i, j | 0 <= i < j < |rest| ensures rest[i].Kind() != rest[j].Kind() {
          assert rest[i] == effects[i + 1] && rest[j] == effects[j + 1];
        }
      }
      CountDistinct(rest, k);
      if effects[0].Kind() == k {
        assert !Emits(rest, k) by {
          forall i | 0 <= i < |rest| ensures rest[i].Kind() != k {
            assert rest[i] == effects[i + 1];
          }
        }
      }
    }
  }

  /** Every tick keeps both latches consistent with the run/idle state. */
  lemma {:induction false} RunPreservesInv(s: State, ins: seq<TickInputs>)
    requires Inv(s)
    ensures Inv(Run(s, ins).final)
    decreases |ins|
  {
    if |ins| > 0 {
      RunPreservesInv(Step(s, ins[0]).state, ins[1..]);
    }
  }

  /**
   * While no tick reads an idle power value (the run goes on, perhaps with
   * failed ticks in between) and every turn-off succeeds, the long-run alert
   * and the turn-off command each happen at most once, and not at all once
   * latched.
   */
  lemma {:induction false} LongRunAtMostOncePerRun(s: State, ins: seq<TickInputs>)
    requires forall i :: 0 <= i < |ins| ==> !IdleReading(ins[i]) && ins[i].turnOffSucceeds
    ensures Count(Run(s, ins).effects, AlertSent(LongRunAlert)) <= (if s.alertedLongPower then 0 else 1)
    ensures Count(Run(s, ins).effects, TurnOffCommanded) <= (if s.alertedLongPower then 0 else 1)
    decreases |ins|
  {
    if |ins| > 0 {
      var t := Step(s, ins[0]);
      StepLongRun(s, ins[0]);
      LongRunAtMostOncePerRun(t.state, ins[1..]);
      CountConcat(t.effects, Run(t.state, ins[1..]).effects, AlertSent(LongRunAlert));
      CountConcat(t.effects, Run(t.state, ins[1..]).effects, TurnOffCommanded);
      CountDistinct(t.effects, AlertSent(LongRunAlert));
      CountDistinct(t.effects, TurnOffCommanded);
    }
  }

  /** Each tick produces each kind of effect at most once. */
  lemma {:induction false} TickCounts(s: State, inp: TickInputs, k: EffectKind)
    ensures Count(Step(s, inp).effects, k) == (if Emits(Step(s, inp).effects, k) then 1 else 0)
  {
    CountDistinct(Step(s, inp).effects, k);
  }

  /** An answered 24-hour query gets the tick through the weather part, due or not. */
  lemma {:induction false} AnsweredCompletes(s: State, inp: TickInputs)
    requires inp.hourly.Answered?
    ensures WeatherCompletes(s, inp)
  {
  }

  /** One active tick of an overlong run whose turn-off raises. */
  lemma {:induction false} FailedCutOffTick(s: State, inp: TickInputs)
    requires s.powerOnStart.Some? && !s.alertedLongPower
    requires ActiveReading(inp) && WeatherCompletes(s, inp) && !inp.turnOffSucceeds
    requires inp.now - s.powerOnStart.value > LongRunSeconds
    ensures var t := Step(s, inp);
      && t.outcome == Aborted(TurnOffFailed)
      && t.state.powerOnStart == s.powerOnStart && !t.state.alertedLongPower
      && Count(t.effects, AlertSent(LongRunAlert)) == 1
      && Count(t.effects, TurnOffCommanded) == 1
  {
    var t := Step(s, inp);
    assert ReachesPowerLogic(s, inp);
    StepLongRun(s, inp);
    StepActive(s, inp);
    assert Emits(t.effects, AlertSent(LongRunAlert)) && Emits(t.effects, TurnOffCommanded) by {
      EmitsMember(t.effects, SendAlert(LongRunTurningOff));
      EmitsMember(t.effects, TurnOff);
    }
    TickCounts(s, inp, AlertSent(LongRunAlert));
    TickCounts(s, inp, TurnOffCommanded);
  }

  /**
   * With a turn-off that keeps failing the latch is never set, so the
   * long-run alert and the turn-off command repeat on every tick of an
   * overlong run.
   */
  lemma {:induction false} LongRunRepeatsWhileTurnOffFails(s: State, ins: seq<TickInputs>)
    requires s.powerOnStart.Some? && !s.alertedLongPower
    requires forall i :: 0 <= i < |ins| ==>
      && ActiveReading(ins[i])
      && ins[i].hourly.Answered?
      && !ins[i].turnOffSucceeds
      && ins[i].now - s.powerOnStart.value > LongRunSeconds
    ensures Count(Run(s, ins).effects, AlertSent(LongRunAlert)) == |ins|
    ensures Count(Run(s, ins).effects, TurnOffCommanded) == |ins|
    ensures Run(s, ins).final.powerOnStart == s.powerOnStart && !Run(s, ins).final.alertedLongPower
    decreases |ins|
  {
    if |ins| > 0 {
      var t := Step(s, ins[0]);
      AnsweredCompletes(s, ins[0]);
      FailedCutOffTick(s, ins[0]);
      var rest := Run(t.state, ins[1..]);
      LongRunRepeatsWhileTurnOffFails(t.state, ins[1..]);
      CountConcat(t.effects, rest.effects, AlertSent(LongRunAlert));
      CountConcat(t.effects, rest.effects, TurnOffCommanded);
    }
  }

  /**
   * While no tick reads a power value above the threshold, the no-draw
   * alert is sent at most once, and not at all once latched.
   */
  lemma {:induction false} NoDrawAlertAtMostOncePerSilence(s: State, ins: seq<TickInputs>)
    requires forall i :: 0 <= i < |ins| ==> !ActiveReading(ins[i])
    ensures Count(Run(s, ins).effects, AlertSent(NoDrawAlert)) <= (if s.alertedNoPower then 0 else 1)
    decreases |ins|
  {
    if |ins| > 0 {
      var t := Step(s, ins[0]);
      StepIdle(s, ins[0]);
      TickCounts(s, ins[0], AlertSent(NoDrawAlert));
      var rest := Run(t.state, ins[1..]);
      NoDrawAlertAtMostOncePerSilence(t.state, ins[1..]);
      CountConcat(t.effects, rest.effects, AlertSent(NoDrawAlert));
    }
  }

  /**
   * Within any window of 24 hours the lawn alert is sent at most once, and
   * not at all if the daily check already ran inside the window.
   */
  lemma {:induction false} LawnAlertAtMostOncePerDay(s: State, ins: seq<TickInputs>, from: int)
    requires forall i :: 0 <= i < |ins| ==> from <= ins[i].now <= from + DailyPeriodSeconds
    ensures Count(Run(s, ins).effects, AlertSent(LawnAlert)) <= (if s.lastWeeklyRainCheckTime >= from then 0 else 1)
    ensures s.lastWeeklyRainCheckTime >= from ==> Run(s, ins).final.lastWeeklyRainCheckTime >= from
    decreases |ins|
  {
    if |ins| > 0 {
      var t := Step(s, ins[0]);
      TickCounts(s, ins[0], AlertSent(LawnAlert));
      var rest := Run(t.state, ins[1..]);
      LawnAlertAtMostOncePerDay(t.state, ins[1..], from);
      CountConcat(t.effects, rest.effects, AlertSent(LawnAlert));
    }
  }

  /**
   * While the 24-hour weather query keeps failing once it is due, every tick
   * aborts before the power logic: nothing is logged, no alert is sent, no
   * run is cut off, and the state does not move.
   */
  lemma {:induction false} WeatherOutageSuspendsMonitoring(s: State, ins: seq<TickInputs>)
    requires forall i :: 0 <= i < |ins| ==> HourlyDue(s, ins[i].now) && ins[i].hourly.QueryFailed?
    ensures Run(s, ins) == History(s, [])
    decreases |ins|
  {
    if |ins| > 0 {
      assert Step(s, ins[0]).state == s && Step(s, ins[0]).effects == [];
      WeatherOutageSuspendsMonitoring(s, ins[1..]);
    }
  }

  /**
   * If every 24-hour query fails, the cached rainfall keeps its last value
   * and no weather row is logged.
   */
  lemma {:induction false} FailedQueriesKeepCachedRain(s: State, ins: seq<TickInputs>)
    requires forall i :: 0 <= i < |ins| ==> ins[i].hourly.QueryFailed?
    ensures Run(s, ins).final.rainLast24h == s.rainLast24h
    ensures Count(Run(s, ins).effects, RainRowLogged) == 0
    decreases |ins|
  {
    if |ins| > 0 {
      var t := Step(s, ins[0]);
      TickCounts(s, ins[0], RainRowLogged);
      var rest := Run(t.state, ins[1..]);
      FailedQueriesKeepCachedRain(t.state, ins[1..]);
      CountConcat(t.effects, rest.effects, RainRowLogged);
    }
  }

  /** The ticks of `ins` come one second apart, starting at `from`. */
  predicate OneSecondApart(ins: seq<TickInputs>, from: int) {
    forall i :: 0 <= i < |ins| ==> ins[i].now == from + i
  }

  /**
   * The ticks of `ins` all read the same kind of power value, get their
   * 24-hour query answered, and can turn the plug off.
   */
  predicate SteadyActive(ins: seq<TickInputs>) {
    forall i :: 0 <= i < |ins| ==>
      ActiveReading(ins[i]) && ins[i].hourly.Answered? && ins[i].turnOffSucceeds
  }

  /** The first tick of a steady stretch, and the stretch that follows it. */
  lemma {:induction false} SteadyTail(ins: seq<TickInputs>, from: int)
    requires |ins| > 0 && OneSecondApart(ins, from) && SteadyActive(ins)
    ensures ins[0].now == from
    ensures ActiveReading(ins[0]) && ins[0].hourly.Answered? && ins[0].turnOffSucceeds
    ensures OneSecondApart(ins[1..], from + 1) && SteadyActive(ins[1..])
  {
    assert forall i :: 0 <= i < |ins[1..]| ==> ins[1..][i] == ins[i + 1];
  }

  /** One active tick inside an open run that gets its weather and can turn the plug off. */
  lemma {:induction false} ActiveTickInRun(s: State, inp: TickInputs)
    requires s.powerOnStart.Some?
    requires ActiveReading(inp) && WeatherCompletes(s, inp) && inp.turnOffSucceeds
    ensures var t := Step(s, inp);
      && t.state.powerOnStart == s.powerOnStart
      && t.state.alertedLongPower == (s.alertedLongPower || LongRunDue(s, inp.now))
      && Count(t.effects, AlertSent(DrawAlert)) == 0
      && Count(t.effects, AlertSent(LongRunAlert)) == (if LongRunDue(s, inp.now) then 1 else 0)
      && Count(t.effects, TurnOffCommanded) == (if LongRunDue(s, inp.now) then 1 else 0)
  {
    var t := Step(s, inp);
    var due := LongRunDue(s, inp.now);
    assert ReachesPowerLogic(s, inp);
    StepActive(s, inp);
    StepDrawAlert(s, inp);
    StepLongRun(s, inp);
    assert Emits(t.effects, AlertSent(LongRunAlert)) == due && Emits(t.effects, TurnOffCommanded) == due by {
      if due {
        EmitsMember(t.effects, SendAlert(LongRunTurningOff));
        EmitsMember(t.effects, TurnOff);
      }
    }
    TickCounts(s, inp, AlertSent(DrawAlert));
    TickCounts(s, inp, AlertSent(LongRunAlert));
    TickCounts(s, inp, TurnOffCommanded);
  }

  /** The active tick that opens a run. */
  lemma {:induction false} ActiveTickFromIdle(s: State, inp: TickInputs)
    requires Inv(s) && s.powerOnStart.None?
    requires ActiveReading(inp) && WeatherCompletes(s, inp)
    ensures var t := Step(s, inp);
      && t.state.powerOnStart == Some(inp.now)
      && !t.state.alertedLongPower
      && Count(t.effects, AlertSent(DrawAlert)) == 1
      && Count(t.effects, AlertSent(LongRunAlert)) == 0
      && Count(t.effects, TurnOffCommanded) == 0
  {
    var t := Step(s, inp);
    StepActive(s, inp);
    StepLongRun(s, inp);
    EmitsMember(t.effects, SendAlert(PowerDrawDetected(PowerWatts(inp.device.powerMw))));
    TickCounts(s, inp, AlertSent(DrawAlert));
    TickCounts(s, inp, AlertSent(LongRunAlert));
    TickCounts(s, inp, TurnOffCommanded);
  }

  /**
   * Draw continuing one tick per second through an open run: no new draw
   * alert, and the long-run alert and turn-off exactly once if, and only if,
   * the run passes the one-minute mark unlatched.
   */
  lemma {:induction false} ContinuingRun(s: State, ins: seq<TickInputs>, from: int)
    requires s.powerOnStart.Some?
    requires OneSecondApart(ins, from) && SteadyActive(ins)
    ensures Count(Run(s, ins).effects, AlertSent(DrawAlert)) == 0
    ensures var fires := !s.alertedLongPower && |ins| > 0
                         && from + |ins| - 1 - s.powerOnStart.value > LongRunSeconds;
      && Count(Run(s, ins).effects, AlertSent(LongRunAlert)) == (if fires then 1 else 0)
      && Count(Run(s, ins).effects, TurnOffCommanded) == (if fires then 1 else 0)
    decreases |ins|
  {
    if |ins| > 0 {
      var t := Step(s, ins[0]);
      SteadyTail(ins, from);
      AnsweredCompletes(s, ins[0]);
      ActiveTickInRun(s, ins[0]);
      var rest := Run(t.state, ins[1..]);
      ContinuingRun(t.state, ins[1..], from + 1);
      CountConcat(t.effects, rest.effects, AlertSent(DrawAlert));
      CountConcat(t.effects, rest.effects, AlertSent(LongRunAlert));
      CountConcat(t.effects, rest.effects, TurnOffCommanded);
    }
  }

  /**
   * Draw above the threshold for `|ins| - 1` seconds, starting from idle:
   * exactly one draw alert, and the long-run alert and turn-off exactly once
   * if, and only if, the draw lasts over a minute. Seventy seconds at 0.2 W
   * is 71 such ticks.
   */
  lemma {:induction false} SteadyDrawFromIdle(s: State, ins: seq<TickInputs>, from: int)
    requires Inv(s) && s.powerOnStart.None? && |ins| > 0
    requires OneSecondApart(ins, from) && SteadyActive(ins)
    ensures Count(Run(s, ins).effects, AlertSent(DrawAlert)) == 1
    ensures Count(Run(s, ins).effects, AlertSent(LongRunAlert)) == (if |ins| - 1 > LongRunSeconds then 1 else 0)
    ensures Count(Run(s, ins).effects, TurnOffCommanded) == (if |ins| - 1 > LongRunSeconds then 1 else 0)
  {
    var t := Step(s, ins[0]);
    SteadyTail(ins, from);
    ActiveTickFromIdle(s, ins[0]);
    var rest := Run(t.state, ins[1..]);
    ContinuingRun(t.state, ins[1..], from + 1);
    CountConcat(t.effects, rest.effects, AlertSent(DrawAlert));
    CountConcat(t.effects, rest.effects, AlertSent(LongRunAlert));
    CountConcat(t.effects, rest.effects, TurnOffCommanded);
  }

  /** One idle tick that gets at least 10 mm of rain from its 24-hour answer. */
  lemma {:induction false} IdleTickInRain(s: State, inp: TickInputs)
    requires IdleReading(inp) && inp.hourly.Answered? && inp.hourly.value.rainMm >= RainAlertThresholdMm
    requires s.rainLast24h >= RainAlertThresholdMm
    ensures var t := Step(s, inp);
      var due := inp.now - s.lastPowerTime > NoPowerSeconds && !s.alertedNoPower;
      && t.state.rainLast24h >= RainAlertThresholdMm
      && t.state.lastPowerTime == s.lastPowerTime
      && t.state.alertedNoPower == (s.alertedNoPower || due)
      && Count(t.effects, AlertSent(NoDrawAlert)) == (if due then 1 else 0)
  {
    var t := Step(s, inp);
    StepIdle(s, inp);
    TickCounts(s, inp, AlertSent(NoDrawAlert));
    if inp.now - s.lastPowerTime > NoPowerSeconds && !s.alertedNoPower {
      EmitsMember(t.effects, SendAlert(NoDrawDespiteRain(RainSeen(s, inp))));
    }
  }

  /**
   * Idle ticks one second apart while every 24-hour answer (and the cache)
   * shows at least 10 mm of rain: the no-draw alert is sent exactly once if,
   * and only if, the silence passes six hours unlatched.
   */
  lemma {:induction false} SilenceInRain(s: State, ins: seq<TickInputs>, from: int)
    requires s.rainLast24h >= RainAlertThresholdMm
    requires OneSecondApart(ins, from)
    requires forall i :: 0 <= i < |ins| ==>
      IdleReading(ins[i]) && ins[i].hourly.Answered? && ins[i].hourly.value.rainMm >= RainAlertThresholdMm
    ensures var fires := !s.alertedNoPower && |ins| > 0
                         && from + |ins| - 1 - s.lastPowerTime > NoPowerSeconds;
      Count(Run(s, ins).effects, AlertSent(NoDrawAlert)) == (if fires then 1 else 0)
    decreases |ins|
  {
    if |ins| > 0 {
      var t := Step(s, ins[0]);
      IdleTickInRain(s, ins[0]);
      var rest := Run(t.state, ins[1..]);
      assert Run(s, ins) == History(rest.final, t.effects + rest.effects);
      SilenceInRain(t.state, ins[1..], from + 1);
      CountConcat(t.effects, rest.effects, AlertSent(NoDrawAlert));
    }
  }
}
