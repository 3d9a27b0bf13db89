/**
 * The gate controller on the serial line (car_entry.py:45-49; the buzzer
 * write at car_exit.py:86-87). Each command is one byte. When no device was
 * found at start-up every write is skipped.
 */
module Gate {
  const OpenGate: char := '1'
  const CloseGate: char := '0'
  const Buzzer: char := '2'

  /** What a list of writes puts on the line: everything, or nothing without a device. */
  function Emitted(connected: bool, cmds: seq<char>): seq<char> {
    if connected then cmds else []
  }

  /** The serial connection, recorded as the trace of bytes written to it. */
  class Actuator {
    const connected: bool
    var sent: seq<char>

    constructor (connected: bool)
      ensures this.connected == connected && sent == []
    {
      this.connected := connected;
      sent := [];
    }

    /** `control_gate(action)` / `arduino.write(...)`: a write only when the device exists. */
    method Write(c: char)
      modifies this
      ensures sent == old(sent) + Emitted(connected, [c])
    {
      if connected {
        sent := sent + [c];
      }
    }
  }
}
