/** The digital output pins the LED and alarm services drive. */
module Gpio {
  datatype Level = LOW | HIGH

  /** One `digitalWrite(pin, level)`. */
  datatype PinWrite = PinWrite(pin: int, level: Level)
}
