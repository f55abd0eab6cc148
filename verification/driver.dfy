/**
  The firmware's outer loop, without its clock, interrupt and serial plumbing:
  the controller is ticked once per new value of a seconds counter that never
  goes backwards, and each tick's outcome is reported in order.
 */
module Driver {
  import Pump
  import WateringPolicy
  import Hydroponic

  /** One call of the loop: the time it samples and the hardware's answers during the tick. */
  datatype TickInput = TickInput(currentTimeS: nat, env: Hydroponic.Environment)

  /** The loop's result: the controller after the last tick and the outcome of every tick in order. */
  datatype Trace = Trace(state: Hydroponic.Hydroponic, outcomes: seq<Hydroponic.Outcome>)

  /** Tick times never go below `from` and never decrease. */
  predicate TimesFrom(from: nat, ticks: seq<TickInput>)
    decreases |ticks|
  {
    |ticks| == 0 || (from <= ticks[0].currentTimeS && TimesFrom(ticks[0].currentTimeS, ticks[1..]))
  }

  /** Run the controller over `ticks`, one `Run` per entry. */
  function Drive(h: Hydroponic.Hydroponic, ticks: seq<TickInput>): (r: Trace)
    requires TimesFrom(h.runnedLastTimeS, ticks)
    ensures |r.outcomes| == |ticks|
    ensures |ticks| > 0 ==> r.state.runnedLastTimeS <= ticks[|ticks| - 1].currentTimeS
    ensures Hydroponic.Valid(h) ==> Hydroponic.Valid(r.state)
    ensures |r.state.pump.writes| <= |h.pump.writes| + |ticks|
    ensures |h.pump.writes| <= |r.state.pump.writes|
    ensures r.state.pump.writes[..|h.pump.writes|] == h.pump.writes
    decreases |ticks|
  {
    if |ticks| == 0 then Trace(h, [])
    else
      var first := Hydroponic.Run(h, ticks[0].currentTimeS, ticks[0].env);
      assert Hydroponic.Valid(h) ==> Hydroponic.Valid(first.state) by {
        if Hydroponic.Valid(h) {
          Hydroponic.RunKeepsValid(h, ticks[0].currentTimeS, ticks[0].env);
        }
      }
      assert TimesFrom(first.state.runnedLastTimeS, ticks[1..]) by {
        TimesFromWeaken(first.state.runnedLastTimeS, ticks[0].currentTimeS, ticks[1..]);
      }
      var rest := Drive(first.state, ticks[1..]);
      assert rest.state.pump.writes[..|h.pump.writes|] == h.pump.writes by {
        assert rest.state.pump.writes[..|first.state.pump.writes|] == first.state.pump.writes;
        assert first.state.pump.writes[..|h.pump.writes|] == h.pump.writes;
      }
      Trace(rest.state, [first.outcome] + rest.outcomes)
  }

  /** A controller built around a freshly constructed pump satisfies the invariant from the first tick on. */
  lemma DriveFromNewKeepsValid(initialPin: Pump.PinResult, ticks: seq<TickInput>)
    requires TimesFrom(0, ticks)
    ensures Hydroponic.Valid(Drive(Hydroponic.New(Pump.New(initialPin)), ticks).state)
  {
  }

  /** Any tick of a loop that only ever sees sensor failures leaves the controller exactly as it started. */
  lemma {:induction false} SensorOutageFreezes(h: Hydroponic.Hydroponic, ticks: seq<TickInput>)
    requires TimesFrom(h.runnedLastTimeS, ticks)
    requires forall i :: 0 <= i < |ticks| ==> ticks[i].env.sensor.ReadFailed?
    ensures Drive(h, ticks).state == h
    ensures forall i :: 0 <= i < |ticks| ==> Drive(h, ticks).outcomes[i] == Hydroponic.Err(Hydroponic.SensorFailed)
    decreases |ticks|
  {
    if |ticks| > 0 {
      assert TimesFrom(h.runnedLastTimeS, ticks[1..]) by {
        TimesFromWeaken(h.runnedLastTimeS, ticks[0].currentTimeS, ticks[1..]);
      }
      SensorOutageFreezes(h, ticks[1..]);
    }
  }

  /** Lowering the starting bound keeps the tick times admissible. */
  lemma TimesFromWeaken(lo: nat, hi: nat, ticks: seq<TickInput>)
    requires lo <= hi && TimesFrom(hi, ticks)
    ensures TimesFrom(lo, ticks)
  {
  }

  /**
    Every tick that reads the sensor comes no later than `from` plus the
    interval re-planned from its reading.
   */
  predicate WithinInterval(from: nat, ticks: seq<TickInput>)
  {
    forall i :: 0 <= i < |ticks| && ticks[i].env.sensor.Read? ==>
      ticks[i].currentTimeS <= from + WateringPolicy.GetWateringInterval(ticks[i].env.sensor.measurement)
  }

  /**
    With the pump off, ticks that stay within the interval since the last start
    never touch the pump or the start time, and none of them fails on the pump.
   */
  lemma {:induction false} IdleWithinInterval(h: Hydroponic.Hydroponic, ticks: seq<TickInput>)
    requires !h.pump.running
    requires TimesFrom(h.runnedLastTimeS, ticks) && WithinInterval(h.runnedLastTimeS, ticks)
    ensures Drive(h, ticks).state.pump == h.pump
    ensures Drive(h, ticks).state.runnedLastTimeS == h.runnedLastTimeS
    ensures forall i :: 0 <= i < |ticks| ==>
      Drive(h, ticks).outcomes[i].Ok? || Drive(h, ticks).outcomes[i] == Hydroponic.Err(Hydroponic.SensorFailed)
    decreases |ticks|
  {
    if |ticks| > 0 {
      var first := Hydroponic.Run(h, ticks[0].currentTimeS, ticks[0].env);
      TimesFromWeaken(h.runnedLastTimeS, ticks[0].currentTimeS, ticks[1..]);
      assert WithinInterval(h.runnedLastTimeS, ticks[1..]) by {
        forall i | 0 <= i < |ticks[1..]| && ticks[1..][i].env.sensor.Read?
          ensures ticks[1..][i].currentTimeS
                  <= h.runnedLastTimeS + WateringPolicy.GetWateringInterval(ticks[1..][i].env.sensor.measurement)
        {
          assert ticks[1..][i] == ticks[i + 1];
        }
      }
      IdleWithinInterval(first.state, ticks[1..]);
    }
  }

  /**
    The start time is committed before the switch-on, so a failed start
    postpones the next attempt: after it, no tick touches the pump until the
    interval re-planned at that tick has passed again since the failed attempt.
   */
  lemma FailedStartPostponesRetry(h: Hydroponic.Hydroponic, t1: nat, env1: Hydroponic.Environment, ticks: seq<TickInput>)
    requires h.runnedLastTimeS <= t1
    requires env1.sensor.Read? && env1.onPin == Pump.PinErr
    requires Hydroponic.ShouldStartWatering(Hydroponic.Replan(h, env1.sensor.measurement), t1)
    requires TimesFrom(t1, ticks) && WithinInterval(t1, ticks)
    ensures var failed := Hydroponic.Run(h, t1, env1);
      var tr := Drive(h, [TickInput(t1, env1)] + ticks);
      && failed.outcome == Hydroponic.Err(Hydroponic.PumpStartFailed)
      && tr.outcomes[0] == failed.outcome
      && tr.state.runnedLastTimeS == t1
      && tr.state.pump == failed.state.pump && !tr.state.pump.running
      && forall i :: 1 <= i < |tr.outcomes| ==> tr.outcomes[i] != Hydroponic.Err(Hydroponic.PumpStartFailed)
  {
    var failed := Hydroponic.Run(h, t1, env1);
    assert ([TickInput(t1, env1)] + ticks)[1..] == ticks;
    IdleWithinInterval(failed.state, ticks);
  }
}
