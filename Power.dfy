/** The two requests IdleBuster makes of SetThreadExecutionState, and what the
    operating system is left doing after a sequence of them. */
module Power {

  /** The EXECUTION_STATE flag word (a 32-bit unsigned enum in the source). */
  type ExecutionState = bv32

  const ES_AWAYMODE_REQUIRED: ExecutionState := 0x0000_0040
  const ES_CONTINUOUS: ExecutionState := 0x8000_0000
  const ES_DISPLAY_REQUIRED: ExecutionState := 0x0000_0002
  const ES_SYSTEM_REQUIRED: ExecutionState := 0x0000_0001

  /** One call of SetThreadExecutionState: PreventMonitorPowerdown or AllowMonitorPowerdown. */
  datatype PowerCall = Prevent | Allow

  /** The flag word each call passes: both are continuous requests; only Prevent
      asks for the display, and neither asks for the system or away mode. */
  function Flags(c: PowerCall): (f: ExecutionState)
    ensures f & ES_CONTINUOUS == ES_CONTINUOUS
    ensures (f & ES_DISPLAY_REQUIRED != 0) <==> c == Prevent
    ensures f & (ES_SYSTEM_REQUIRED | ES_AWAYMODE_REQUIRED) == 0
  {
    match c
    case Prevent => ES_DISPLAY_REQUIRED | ES_CONTINUOUS
    case Allow => ES_CONTINUOUS
  }

  /** Whether the display is being kept on after the calls in `log`, oldest first.
      Every call carries ES_CONTINUOUS, so the latest one replaces the earlier
      requests; before any call the system is free to idle. */
  predicate DisplayKeptOn(log: seq<PowerCall>) {
    |log| > 0 && Flags(log[|log| - 1]) & ES_DISPLAY_REQUIRED != 0
  }

  /** The latest call alone decides, and Prevent and Allow set the two positions. */
  lemma LatestCallDecides(log: seq<PowerCall>, c: PowerCall)
    ensures DisplayKeptOn(log + [c]) <==> c == Prevent
  {
  }
}
