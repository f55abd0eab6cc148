/**
  The watering controller: one call of `Run` is one tick. It reads the sensor,
  re-plans the watering interval from the reading, decides whether to start
  the pump, then whether to stop it, and reports a status snapshot. Every
  failure ends the tick at once; what the tick committed before the failure
  stays committed, which is why `Run` returns the controller on both paths.
 */
module Hydroponic {
  import Dht22
  import Pump
  import WateringPolicy

  /** How long, in seconds, the pump stays on once started. */
  const WateringDurationS: nat := 15

  /** The interval a freshly built controller holds before its first reading. */
  const InitialWateringIntervalS: nat := 15 * 60

  /** The controller: its pump, the start time of the last watering, the current interval and the last good reading. */
  datatype Hydroponic = Hydroponic(
    pump: Pump.Pump,
    runnedLastTimeS: nat,
    wateringIntervalS: nat,
    currentMeasurement: Dht22.Measurement)

  /** Why a tick failed. */
  datatype Error = SensorFailed | PumpStartFailed | PumpStopFailed

  /** What a successful tick reports: interval, temperature, last start time and whether the pump runs. */
  datatype Status = Status(wateringIntervalS: nat, temp: real, runnedLastTimeS: nat, isPumpRunning: bool)

  /** The value a tick returns. */
  datatype Outcome = Ok(status: Status) | Err(error: Error)

  /** A tick's effect: the controller after the call and what the call returned. */
  datatype Tick = Tick(state: Hydroponic, outcome: Outcome)

  /**
    The oracle answers one tick may consult: the sensor read, and what the pin
    answers to a turn-on and to a turn-off, should either be issued.
   */
  datatype Environment = Environment(sensor: Dht22.ReadResult, onPin: Pump.PinResult, offPin: Pump.PinResult)

  /** The controller's invariant: a policy interval and a pump whose flag agrees with its pin history. */
  predicate Valid(h: Hydroponic)
  {
    WateringPolicy.IsTableInterval(h.wateringIntervalS) && Pump.InSync(h.pump)
  }

  /** A fresh controller around `pump`: never watered, 900-second interval, zero reading. */
  function New(pump: Pump.Pump): (h: Hydroponic)
    ensures h.pump == pump && h.runnedLastTimeS == 0
    ensures h.wateringIntervalS == InitialWateringIntervalS == 900
    ensures WateringPolicy.IsTableInterval(h.wateringIntervalS)
    ensures h.currentMeasurement == Dht22.Measurement(0.0, 0.0)
    ensures WateringPolicy.GetWateringInterval(h.currentMeasurement) == 10800
    ensures Pump.InSync(pump) ==> Valid(h)
  {
    Hydroponic(pump, 0, InitialWateringIntervalS, Dht22.Measurement(0.0, 0.0))
  }

  /**
    More than one interval has passed since the last start and the pump is off.
    With a policy interval (at least 900 s) a start therefore comes well after
    the previous watering's duration has run out.
   */
  function ShouldStartWatering(h: Hydroponic, currentTimeS: nat): (b: bool)
    requires h.runnedLastTimeS <= currentTimeS
    ensures b && WateringPolicy.IsTableInterval(h.wateringIntervalS) ==>
      currentTimeS - h.runnedLastTimeS > WateringDurationS
  {
    currentTimeS - h.runnedLastTimeS > h.wateringIntervalS && !Pump.IsPumpRunning(h.pump)
  }

  /**
    At least the watering duration has passed since the last start and the pump
    is on. The stop and start conditions never hold together, and no stop is
    due at the very second a watering started.
   */
  function ShouldStopWatering(h: Hydroponic, currentTimeS: nat): (b: bool)
    requires h.runnedLastTimeS <= currentTimeS
    ensures b ==> !ShouldStartWatering(h, currentTimeS)
    ensures b ==> currentTimeS != h.runnedLastTimeS
  {
    currentTimeS - h.runnedLastTimeS >= WateringDurationS && Pump.IsPumpRunning(h.pump)
  }

  /**
    The status a successful tick reports for controller `h`: for a valid
    controller it carries a policy interval and the pump state the pin was last
    commanded to.
   */
  function Snapshot(h: Hydroponic): (s: Status)
    ensures s.temp == h.currentMeasurement.temp && s.runnedLastTimeS == h.runnedLastTimeS
    ensures Valid(h) ==> WateringPolicy.IsTableInterval(s.wateringIntervalS)
    ensures Valid(h) ==> (s.isPumpRunning <==> Pump.LastCommanded(h.pump.writes) == Pump.High)
  {
    Status(h.wateringIntervalS, h.currentMeasurement.temp, h.runnedLastTimeS, Pump.IsPumpRunning(h.pump))
  }

  /** The re-plan step of a tick: keep the new reading and the interval it implies. */
  function Replan(h: Hydroponic, reading: Dht22.Measurement): (planned: Hydroponic)
    ensures planned.currentMeasurement == reading
    ensures WateringPolicy.IsTableInterval(planned.wateringIntervalS)
    ensures planned.pump == h.pump && planned.runnedLastTimeS == h.runnedLastTimeS
  {
    h.(currentMeasurement := reading, wateringIntervalS := WateringPolicy.GetWateringInterval(reading))
  }

  /** The stop decision and the report that closes a tick. */
  function StopPhase(h: Hydroponic, currentTimeS: nat, offPin: Pump.PinResult): Tick
    requires h.runnedLastTimeS <= currentTimeS
  {
    if ShouldStopWatering(h, currentTimeS) then
      var off := Pump.TurnOff(h.pump, offPin);
      var stopped := h.(pump := off.pump);
      if off.result == Pump.PinErr then Tick(stopped, Err(PumpStopFailed))
      else Tick(stopped, Ok(Snapshot(stopped)))
    else
      Tick(h, Ok(Snapshot(h)))
  }

  /** One tick at time `currentTimeS`, with the hardware's answers given by `env`. */
  function Run(h: Hydroponic, currentTimeS: nat, env: Environment): (t: Tick)
    requires h.runnedLastTimeS <= currentTimeS
    ensures h.runnedLastTimeS <= t.state.runnedLastTimeS <= currentTimeS
    ensures env.sensor.ReadFailed? ==> t == Tick(h, Err(SensorFailed))
    ensures env.sensor.Read? ==>
      && t.state.currentMeasurement == env.sensor.measurement
      && t.state.wateringIntervalS == WateringPolicy.GetWateringInterval(env.sensor.measurement)
    ensures t.outcome.Ok? ==> t.outcome.status == Snapshot(t.state)
    ensures t.state.pump.writes == h.pump.writes || |t.state.pump.writes| == |h.pump.writes| + 1
    ensures t.state.pump.writes[..|h.pump.writes|] == h.pump.writes
  {
    match env.sensor
    case ReadFailed => Tick(h, Err(SensorFailed))
    case Read(reading) =>
      var planned := Replan(h, reading);
      if ShouldStartWatering(planned, currentTimeS) then
        var committed := planned.(runnedLastTimeS := currentTimeS);
        var on := Pump.TurnOn(committed.pump, env.onPin);
        var started := committed.(pump := on.pump);
        if on.result == Pump.PinErr then Tick(started, Err(PumpStartFailed))
        else StopPhase(started, currentTimeS, env.offPin)
      else
        StopPhase(planned, currentTimeS, env.offPin)
  }

  /**
    Start rule: when the start condition holds the start time is committed to
    the tick's time before the pump is switched on, and stays committed if the
    switch-on fails; otherwise the start time is untouched.
   */
  lemma StartRule(h: Hydroponic, currentTimeS: nat, env: Environment)
    requires h.runnedLastTimeS <= currentTimeS
    requires env.sensor.Read?
    ensures var t := Run(h, currentTimeS, env);
      if ShouldStartWatering(Replan(h, env.sensor.measurement), currentTimeS) then
        && t.state.runnedLastTimeS == currentTimeS
        && t.state.pump.writes == h.pump.writes + [Pump.Write(Pump.High, env.onPin)]
        && (env.onPin == Pump.PinErr ==> t.outcome == Err(PumpStartFailed) && !t.state.pump.running)
        && (env.onPin == Pump.PinOk ==> t.outcome.Ok? && t.state.pump.running)
      else
        t.state.runnedLastTimeS == h.runnedLastTimeS
  {
  }

  /**
    Stop rule: with the pump on and at least the watering duration elapsed
    since the last start, the tick issues one turn-off; it fails the tick when
    the pin rejects it and otherwise leaves the pump off.
   */
  lemma StopRule(h: Hydroponic, currentTimeS: nat, env: Environment)
    requires h.runnedLastTimeS <= currentTimeS
    requires env.sensor.Read?
    requires h.pump.running && currentTimeS - h.runnedLastTimeS >= WateringDurationS
    ensures var t := Run(h, currentTimeS, env);
      && t.state.runnedLastTimeS == h.runnedLastTimeS
      && t.state.pump.writes == h.pump.writes + [Pump.Write(Pump.Low, env.offPin)]
      && (env.offPin == Pump.PinErr <==> t.outcome == Err(PumpStopFailed))
      && (env.offPin == Pump.PinOk ==> !t.state.pump.running && t.outcome == Ok(Snapshot(t.state)))
  {
  }

  /** A tick that neither starts nor stops leaves the pump alone and succeeds. */
  lemma QuietTick(h: Hydroponic, currentTimeS: nat, env: Environment)
    requires h.runnedLastTimeS <= currentTimeS
    requires env.sensor.Read?
    requires !ShouldStartWatering(Replan(h, env.sensor.measurement), currentTimeS)
    requires !(h.pump.running && currentTimeS - h.runnedLastTimeS >= WateringDurationS)
    ensures Run(h, currentTimeS, env).state.pump == h.pump
    ensures Run(h, currentTimeS, env).outcome.Ok?
  {
  }

  /** The tick that starts the pump never stops it: zero seconds have elapsed since the start it just recorded. */
  lemma StartTickNeverStops(h: Hydroponic, currentTimeS: nat, env: Environment)
    requires h.runnedLastTimeS <= currentTimeS
    requires env.sensor.Read? && ShouldStartWatering(Replan(h, env.sensor.measurement), currentTimeS)
    ensures Pump.Write(Pump.Low, env.offPin) !in Run(h, currentTimeS, env).state.pump.writes[|h.pump.writes|..]
  {
  }

  /** A tick keeps the controller's invariant, whatever the sensor and the pin answer. */
  lemma RunKeepsValid(h: Hydroponic, currentTimeS: nat, env: Environment)
    requires h.runnedLastTimeS <= currentTimeS
    requires Valid(h)
    ensures Valid(Run(h, currentTimeS, env).state)
  {
    if env.sensor.Read? {
      Pump.TurnOnKeepsSync(h.pump, env.onPin);
      Pump.TurnOffKeepsSync(h.pump, env.offPin);
      Pump.TurnOffKeepsSync(Pump.TurnOn(h.pump, env.onPin).pump, env.offPin);
    }
  }

  /**
    The stored interval never steers a decision: the tick re-plans from its own
    reading before deciding, so the initial 900 seconds, or an interval left
    by an earlier reading, cannot matter.
   */
  lemma RunIgnoresStoredInterval(h: Hydroponic, currentTimeS: nat, env: Environment, stale: nat)
    requires h.runnedLastTimeS <= currentTimeS
    requires env.sensor.Read?
    ensures Run(h.(wateringIntervalS := stale), currentTimeS, env) == Run(h, currentTimeS, env)
  {
  }

  /**
    After a successful read the stored interval is the one the stored reading
    implies, and a failed read keeps that agreement.
   */
  lemma IntervalFollowsReading(h: Hydroponic, currentTimeS: nat, env: Environment)
    requires h.runnedLastTimeS <= currentTimeS
    requires env.sensor.Read? || h.wateringIntervalS == WateringPolicy.GetWateringInterval(h.currentMeasurement)
    ensures var s := Run(h, currentTimeS, env).state;
      s.wateringIntervalS == WateringPolicy.GetWateringInterval(s.currentMeasurement)
  {
  }

  /**
    The firmware's pump drives a pin whose writes cannot fail; with such a pin
    the only way a tick fails is a sensor failure.
   */
  lemma InfalliblePinOnlySensorFails(h: Hydroponic, currentTimeS: nat, env: Environment)
    requires h.runnedLastTimeS <= currentTimeS
    requires env.onPin == Pump.PinOk && env.offPin == Pump.PinOk
    ensures Run(h, currentTimeS, env).outcome.Err? <==> env.sensor.ReadFailed?
  {
  }

  /**
    A fresh controller with the pump off, ticked one second past the interval
    its reading implies, starts the pump and records that tick as the start.
   */
  lemma FirstWateringStarts(pump: Pump.Pump, reading: Dht22.Measurement)
    requires !pump.running
    ensures var now := WateringPolicy.GetWateringInterval(reading) + 1;
      var t := Run(New(pump), now, Environment(Dht22.Read(reading), Pump.PinOk, Pump.PinOk));
      t.state.pump.running && t.state.runnedLastTimeS == now && t.outcome.Ok?
  {
  }

  /** A running pump is stopped on the tick at which exactly the watering duration has elapsed. */
  lemma StopsAfterDuration(h: Hydroponic, reading: Dht22.Measurement)
    requires h.pump.running
    ensures var t := Run(h, h.runnedLastTimeS + WateringDurationS, Environment(Dht22.Read(reading), Pump.PinOk, Pump.PinOk));
      !t.state.pump.running && t.outcome == Ok(Snapshot(t.state))
  {
  }
}
