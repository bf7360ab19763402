/**
  The records the dashboard keeps in its snapshot: sensors with their last sample,
  actuators with their state, and the activity events shown in the activity log.
*/
module Entities {
  import opened Wrappers

  /** A reading: seconds since the epoch and the measured value. */
  datatype Sample = Sample(timestamp: int, value: real)

  datatype Sensor = Sensor(id: string, name: string, unit: string, dataType: string, lastSample: Option<Sample>)

  /** An actuator's state as the API reports it: a boolean, a number, or absent. */
  datatype ActuatorState = Bool(b: bool) | Num(n: real) | Undefined

  /** A state that is actually present: what a command writes. */
  type CommandValue = s: ActuatorState | s != Undefined witness Bool(false)

  datatype Actuator = Actuator(id: string, name: string, unit: string, dataType: string, state: ActuatorState)

  const BOOLEAN := "BOOLEAN"

  /** JavaScript truthiness of a state: `false`, `0` and `undefined` are falsy. */
  predicate Truthy(s: ActuatorState) {
    match s
    case Bool(b) => b
    case Num(n) => n != 0.0
    case Undefined => false
  }

  datatype EventType = SensorEvent | ActuatorEvent | SystemEvent

  datatype Severity = Info | Warning | Success

  /** The notifications the core emits, one constructor per message template. */
  datatype Message =
    | Connected
    | GatewayIssue
    | RateLimited
    | ConnectionLost
    | Updated(actuatorName: string, value: CommandValue)
    | UpdatedLocally(actuatorName: string, historical: bool)
    | UpdateFailed(actuatorName: string, error: string)

  /** One entry of the activity log; `timestamp` is the clock reading in milliseconds when it was added. */
  datatype ActivityEvent = ActivityEvent(kind: EventType, message: Message, severity: Severity, timestamp: int)

  /** How a command value is named in a message: ON/OFF, or the number through `toFixed(1)`. */
  function ValueText(v: CommandValue, fixed1: real -> string): string {
    match v
    case Bool(b) => if b then "ON" else "OFF"
    case Num(n) => fixed1(n)
  }

  /** The text of a message, as the activity log shows it. */
  function MessageText(m: Message, fixed1: real -> string): string {
    match m
    case Connected => "Connected to KV IoT API successfully"
    case GatewayIssue => "KV API experiencing issues (502 Bad Gateway)"
    case RateLimited => "API rate limit reached. Requests are throttled."
    case ConnectionLost => "Lost connection to KV IoT API"
    case Updated(name, v) => "Updated " + name + " to " + ValueText(v, fixed1)
    case UpdatedLocally(name, historical) =>
      name + " updated locally" + (if historical then " (historical mode)" else " - API issue")
    case UpdateFailed(name, error) => "Failed to update " + name + ": " + error
  }

  function EventTypeText(t: EventType): string {
    match t
    case SensorEvent => "sensor"
    case ActuatorEvent => "actuator"
    case SystemEvent => "system"
  }

  function SeverityText(s: Severity): string {
    match s
    case Info => "info"
    case Warning => "warning"
    case Success => "success"
  }
}
