/**
  The temperature/humidity sensor as the watering engine sees it. The DHT22
  protocol itself is not part of this model: a read is an oracle answer that
  either carries a measurement or reports a failure.
 */
module Dht22 {

  /** One sensor measurement: temperature in degrees Celsius and relative humidity. */
  datatype Measurement = Measurement(temp: real, hum: real)

  /** The answer of one sensor read. */
  datatype ReadResult = Read(measurement: Measurement) | ReadFailed
}
