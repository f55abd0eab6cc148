/**
  The pump actuator: a running flag kept beside one output pin. The pin is an
  abstract write that either succeeds or fails; the flag changes only when a
  write succeeds, so it always agrees with the last level commanded successfully.
 */
module Pump {

  /** The two levels the output pin can be driven to. */
  datatype Level = Low | High

  /** What the pin answers to one write; its error value is opaque. */
  datatype PinResult = PinOk | PinErr

  /** One attempted pin write and the pin's answer to it. */
  datatype Write = Write(level: Level, result: PinResult)

  /** The pump: its running flag and the history of every write it attempted on the pin. */
  datatype Pump = Pump(running: bool, writes: seq<Write>)

  /** A command's effect: the pump afterwards and the result the command returns. */
  datatype Actuation = Actuation(pump: Pump, result: PinResult)

  /** The level of the most recent successful write, `Low` when no write has succeeded. */
  function LastCommanded(writes: seq<Write>): Level
  {
    if |writes| == 0 then Low
    else if writes[|writes| - 1].result == PinOk then writes[|writes| - 1].level
    else LastCommanded(writes[..|writes| - 1])
  }

  /** The running flag reflects the pin level last commanded successfully. */
  predicate InSync(p: Pump)
  {
    p.running <==> LastCommanded(p.writes) == High
  }

  /** Drive the pin to `level`; on success the flag becomes `level == High`, on failure nothing but the write history changes. */
  function Command(p: Pump, level: Level, pin: PinResult): Actuation
  {
    var attempted := p.writes + [Write(level, pin)];
    if pin == PinOk then Actuation(Pump(level == High, attempted), PinOk)
    else Actuation(Pump(p.running, attempted), PinErr)
  }

  /**
    The stored flag; reading it changes nothing. For a pump in step with its
    pin it reports whether the last successful command was "on".
   */
  function IsPumpRunning(p: Pump): (r: bool)
    ensures InSync(p) ==> (r <==> LastCommanded(p.writes) == High)
  {
    p.running
  }

  /** Switch the pump on with one high write to the pin. */
  function TurnOn(p: Pump, pin: PinResult): (a: Actuation)
    ensures a.result == pin
    ensures a.pump.writes == p.writes + [Write(High, pin)]
    ensures pin == PinOk ==> a.pump.running
    ensures pin == PinErr ==> a.pump.running == p.running
  {
    Command(p, High, pin)
  }

  /** Switch the pump off with one low write to the pin. */
  function TurnOff(p: Pump, pin: PinResult): (a: Actuation)
    ensures a.result == pin
    ensures a.pump.writes == p.writes + [Write(Low, pin)]
    ensures pin == PinOk ==> !a.pump.running
    ensures pin == PinErr ==> a.pump.running == p.running
  {
    Command(p, Low, pin)
  }

  /**
    A new pump starts not running and issues one low write, whose failure is
    discarded: construction cannot fail.
   */
  function New(pin: PinResult): (p: Pump)
    ensures !IsPumpRunning(p)
    ensures p.writes == [Write(Low, pin)]
    ensures InSync(p)
  {
    TurnOff(Pump(false, []), pin).pump
  }

  /** Appending a write extends the history so that the last successful write decides the level. */
  lemma LastCommandedAppend(writes: seq<Write>, w: Write)
    ensures LastCommanded(writes + [w]) == if w.result == PinOk then w.level else LastCommanded(writes)
  {
    assert (writes + [w])[..|writes|] == writes;
  }

  /** Turning the pump on keeps the flag in step with the last successful command. */
  lemma TurnOnKeepsSync(p: Pump, pin: PinResult)
    requires InSync(p)
    ensures InSync(TurnOn(p, pin).pump)
  {
    LastCommandedAppend(p.writes, Write(High, pin));
  }

  /** Turning the pump off keeps the flag in step with the last successful command. */
  lemma TurnOffKeepsSync(p: Pump, pin: PinResult)
    requires InSync(p)
    ensures InSync(TurnOff(p, pin).pump)
  {
    LastCommandedAppend(p.writes, Write(Low, pin));
  }

  /** A successful on followed by a successful off returns the pump to not running, after exactly two writes. */
  lemma OnThenOffStops(p: Pump)
    ensures var off := TurnOff(TurnOn(p, PinOk).pump, PinOk).pump;
            !off.running && off.writes == p.writes + [Write(High, PinOk), Write(Low, PinOk)]
  {
  }
}
