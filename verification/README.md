# Hydroponic watering engine — Dafny model

This project models the decision logic of a hydroponic watering station's
firmware, which runs on an STM32F4 microcontroller and is written in Rust. On
each tick the controller does the following:

1. It reads a DHT22 temperature/humidity sensor.
2. It looks up a watering interval from the temperature in a fixed
   six-entry breakpoint table.
3. It starts the pump once more than that interval has passed since the last
   watering started.
4. It stops the pump once 15 seconds have passed since that start.
5. It returns a status tuple.

The pump is a flag kept beside one output pin, and the flag changes only when
a pin write succeeds.

Modules:

- `Dht22` (`dht22.dfy`): a measurement (`temp`, `hum`), and a sensor read as
  an oracle answer (`Read(m)` or `ReadFailed`).
- `Pump` (`pump.dfy`): `Pump::new`, `is_pump_running`, `turn_on` and
  `turn_off`. A pin write is an oracle answer (`PinOk` or `PinErr`). The pump
  keeps the history of the writes it attempted. This makes two things
  statable: each command writes the pin exactly once, and the flag always
  matches the last level commanded successfully (`InSync`).
- `WateringPolicy` (`watering_policy.dfy`): the constants
  `WATERING_INTERVAL_DEFAULT_S` and `WATERING_INTERVAL_S`, and
  `get_watering_interval`. The lookup is written the way the source writes it:
  `take_while` with a strict `>`, then `last`, then `unwrap_or(default)`. It is
  proved equal to a separately written step function (`StepInterval`).
- `Hydroponic` (`hydroponic.dfy`): `WATERING_DURATION_S`, `new`,
  `should_start_watering`, `should_stop_watering` and `run`. `Run` is a pure
  step function. It takes the tick time and the oracle answers (sensor read,
  pin answer to a turn-on, pin answer to a turn-off). It returns the
  controller after the tick together with the outcome. The controller comes
  back on the error paths too, because the Rust method mutates `self` and
  steps committed before a failure stay committed.
- `Driver` (`driver.dfy`): the loop in `src/main.rs` without its hardware. It
  ticks the controller over a sequence of times that never decrease.

Temperatures are `real`: the source only compares them against constant
thresholds. Times and intervals are `nat`. Every tick requires
`currentTimeS >= runnedLastTimeS`, the condition under which the source's
`u32` subtraction does not underflow.

## Behaviour worth noting

- `runned_last_time_s` is assigned before `turn_on` is attempted
  (src/hydroponic.rs:62-63). A failed start therefore still postpones the
  next attempt by a whole interval (`Driver.FailedStartPostponesRetry`).
- No tick both starts and stops the pump. The start tick records its own time
  as the start time (src/hydroponic.rs:62), so zero seconds have elapsed when
  the stop rule is checked, and zero is less than the 15-second watering
  duration (`Hydroponic.StartTickNeverStops`,
  `Hydroponic.ShouldStopWatering`). At most one pin write happens per tick
  (`Hydroponic.Run`).
- A fresh controller holds a 900-second interval next to a 0.0 °C reading,
  and 0.0 °C implies 10800 seconds (src/hydroponic.rs:31-35,
  `Hydroponic.New`). This mismatch never matters. `run` re-plans from the new
  reading before it decides anything, and a failed read ends the tick before
  any decision (`Hydroponic.RunIgnoresStoredInterval`,
  `Hydroponic.IntervalFollowsReading`).

## Model

| member | source | states |
|---|---|---|
| Pump.New | src/system/pump.rs:9-16 | a new pump is not running whether or not its initial low write succeeded; exactly one low write is issued; the flag is in step with the pin history |
| Pump.IsPumpRunning | src/system/pump.rs:18-20 | the getter returns the stored flag, which for a pump in step with its pin says whether the last successful pin command was "on" |
| Pump.TurnOn | src/system/pump.rs:22-26 | one high write is issued and its result returned; success sets running, failure leaves running unchanged |
| Pump.TurnOff | src/system/pump.rs:28-32 | one low write is issued and its result returned; success clears running, failure leaves running unchanged |
| Pump.TurnOnKeepsSync | src/system/pump.rs:22-26 | turn_on never desynchronises the running flag from the last successfully commanded pin level |
| Pump.TurnOffKeepsSync | src/system/pump.rs:28-32 | turn_off never desynchronises the running flag from the last successfully commanded pin level |
| Pump.OnThenOffStops | src/system/pump.rs:22-32 | a successful on then a successful off leaves the pump stopped, after exactly the writes high then low |
| WateringPolicy.TakeWhileAbove | src/hydroponic.rs:40-42 | the kept entries are a prefix of the table; the temperature strictly exceeds each kept threshold; it does not exceed the first threshold left out |
| WateringPolicy.Lookup | src/hydroponic.rs:40-44 | the default is chosen when the first threshold is not exceeded; otherwise, for any table, the result is the entry i such that the temperature exceeds every threshold up to i but not the one after i |
| WateringPolicy.TakeWhileAboveSorted | src/hydroponic.rs:17-42 | in a table with increasing thresholds, an entry is kept exactly when its threshold lies strictly below the temperature |
| WateringPolicy.TakeWhileAboveGrows | src/hydroponic.rs:42 | a higher temperature keeps at least as many entries, whatever the table's order |
| WateringPolicy.LookupMonotone | src/hydroponic.rs:39-46 | for any table whose intervals shrink and whose default is largest, the looked-up interval never grows as the temperature rises |
| WateringPolicy.LookupAtThreshold | src/hydroponic.rs:42-44 | a temperature equal to the k-th threshold selects entry k-1, or the default when k is 0 |
| WateringPolicy.TableWellFormed | src/hydroponic.rs:15-24 | the compiled-in thresholds strictly increase; the intervals shrink along the table; the default is at least every table interval |
| WateringPolicy.GetWateringInterval | src/hydroponic.rs:15-46 | the interval is always one of 10800, 7200, 5400, 3600, 1800, 900, and equals the step function: 10800 up to 10 °C, then 7200 / 5400 / 3600 / 1800 above 10 / 15 / 20 / 25 °C, and 900 above 30 °C |
| WateringPolicy.GetWateringIntervalDefault | src/hydroponic.rs:15-44 | at or below 5 °C the default interval of 10800 s is returned |
| WateringPolicy.GetWateringIntervalTies | src/hydroponic.rs:17-44 | a temperature equal to a threshold gets the previous tier's interval (or the default), so 20.0 °C gives 5400, not 3600 |
| WateringPolicy.GetWateringIntervalMonotone | src/hydroponic.rs:17-46 | t1 <= t2 implies interval(t1) >= interval(t2) |
| WateringPolicy.GetWateringIntervalIgnoresHumidity | src/hydroponic.rs:39-46 | two measurements with the same temperature get the same interval |
| WateringPolicy.GetWateringIntervalVectors | src/hydroponic.rs:103-114 | 4.9→10800, 9.9→10800, 14.9→7200, 19.9→5400, 24.9→3600, 29.9→1800, 34.9→900 |
| Hydroponic.New | src/hydroponic.rs:26-37 | a new controller keeps the given pump, has never watered (start time 0), holds the 900 s table interval and a 0.0 °C / 0.0 reading, whose own interval would be 10800; it satisfies the invariant when its pump is in step |
| Hydroponic.ShouldStartWatering | src/hydroponic.rs:83-86 | for a controller holding a policy interval, a start is only due more than the 15 s watering duration after the last start |
| Hydroponic.ShouldStopWatering | src/hydroponic.rs:88-91 | a due stop excludes a due start, and no stop is due in the very second the last watering started |
| Hydroponic.Snapshot | src/hydroponic.rs:75-80 | the reported tuple carries the stored temperature and start time; for a valid controller its interval is a table value and its running flag is the pump state the pin was last commanded to |
| Hydroponic.Replan | src/hydroponic.rs:54-57 | re-planning stores the new reading and a table interval and leaves the pump and the start time alone |
| Hydroponic.Run | src/hydroponic.rs:48-81 | a failed read returns SensorFailed with nothing changed; a good read stores the reading and its interval; the start time only moves forward, never past the tick time; a success reports exactly the post-state; the pin history only grows, by at most one write |
| Hydroponic.StartRule | src/hydroponic.rs:61-66 | if more than the re-planned interval has elapsed and the pump is off: the start time becomes the tick time before turn_on; a failed turn_on returns PumpStartFailed but keeps that start time, and the pump stays off; a good one leaves it running and the tick succeeds; otherwise the start time is untouched |
| Hydroponic.StopRule | src/hydroponic.rs:68-73 | with the pump on and at least 15 s elapsed, exactly one low write is issued; PumpStopFailed is returned exactly when it fails; on success the pump is off and the tick reports the post-state |
| Hydroponic.QuietTick | src/hydroponic.rs:61-80 | when neither rule fires, the pump is untouched and the tick succeeds |
| Hydroponic.StartTickNeverStops | src/hydroponic.rs:61-73 | the tick that starts the pump never issues a turn-off |
| Hydroponic.RunKeepsValid | src/hydroponic.rs:48-81 | whatever the sensor and pin answer, a tick keeps the interval a table value and the pump flag in step with its pin |
| Hydroponic.RunIgnoresStoredInterval | src/hydroponic.rs:53-66 | after a good read, the tick's whole effect is the same whatever interval was stored before |
| Hydroponic.IntervalFollowsReading | src/hydroponic.rs:53-58 | after a good read the stored interval is the one the stored reading implies, and a failed read preserves that agreement |
| Hydroponic.InfalliblePinOnlySensorFails | src/hydroponic.rs:48-81 | with a pin whose writes never fail (the firmware's pin error type is Infallible, line 8), a tick fails exactly when the sensor read fails |
| Hydroponic.FirstWateringStarts | src/hydroponic.rs:26-66 | a fresh controller with the pump off, ticked at its reading's interval + 1, starts the pump, records that time and succeeds |
| Hydroponic.StopsAfterDuration | src/hydroponic.rs:68-91 | a running pump is stopped on the tick at exactly 15 s after its start, and the tick reports the stopped state |
| Driver.Drive | src/main.rs:54-70 | over ticks with non-decreasing times: one outcome per tick; the invariant is preserved; the start time never passes the last tick time; the pin history only grows, by at most one write per tick |
| Driver.DriveFromNewKeepsValid | src/main.rs:51-59 | a controller built as in the firmware satisfies the invariant after any run of ticks |
| Driver.SensorOutageFreezes | src/main.rs:55-68 | a run of sensor failures leaves the controller exactly as it was, and every tick reports SensorFailed |
| Driver.IdleWithinInterval | src/hydroponic.rs:61-91 | with the pump off, any run of ticks that each come no later than the last start plus the interval they re-plan leaves the pump and the start time untouched, and no tick fails on the pump |
| Driver.FailedStartPostponesRetry | src/hydroponic.rs:61-86 | a failed start returns PumpStartFailed but keeps the tick as the start time; every later tick within the interval it re-plans since that attempt leaves the pump off and untouched, and none fails on the pump |
| Driver.TimesFromWeaken | src/main.rs:56-59 | a tick sequence that is admissible after some time is also admissible after any earlier time |

## Left out

- src/main.rs: clock and peripheral set-up, the TIM2 interrupt that
  increments the global seconds counter, serial `writeln!` output, the LED
  calls and the busy-wait. These are hardware, I/O and interrupt concurrency.
  The loop remains only as `Driver.Drive`, whose precondition is that tick
  times never decrease. The source calls `run` only when the counter has
  changed, so its times strictly increase, which is a stronger guarantee.
- src/system/dht22.rs: the DHT22 bit-banged protocol and the external
  `dht_sensor` crate. A read is an oracle answer. The `delay` argument of
  `run` and `read` is dropped.
- src/system/led.rs and src/system/mod.rs: the LED is cosmetic with blocking
  delays and no decision logic, and mod.rs only re-exports modules.
- `u32` wrap-around of the time counter and of `current_time_s -
  runned_last_time_s`: every tick requires the tick time to be at least the
  last start time. Wrap-around behaviour is not modelled.
- `f32` semantics (NaN, rounding): temperatures are `real`. A NaN reading
  would fail every `>` in the source and get the default interval, but the
  model cannot express NaN.
- Error strings: they become `SensorFailed`, `PumpStartFailed` and
  `PumpStopFailed`. The pin's own error value is opaque (`PinErr`).
- The physical pin level is not tracked. Only the writes attempted and the
  pin's answers are tracked, and the running flag is never read back from
  hardware.
