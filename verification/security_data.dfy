/** The value types the security service and its repository share:
    sensors, the arming mode and the alarm level. */
module SecurityData {

  /** Sensors are identified by a stable id; two sensors are the same sensor
      exactly when their ids match. */
  type SensorId = nat

  datatype SensorType = Door | Window | Motion

  datatype Sensor = Sensor(id: SensorId, name: string, kind: SensorType, active: bool)

  datatype ArmingStatus = Disarmed | ArmedHome | ArmedAway

  datatype AlarmStatus = NoAlarm | PendingAlarm | Alarm

  /** A status register that may never have been written: `None` stands for
      the null a fresh repository (or an unstubbed getter) hands back. */
  datatype Option<T> = None | Some(value: T)

  /** How far the alarm has escalated: no alarm, pending, firing. */
  function Severity(a: AlarmStatus): nat
  {
    match a
    case NoAlarm => 0
    case PendingAlarm => 1
    case Alarm => 2
  }

  /** True when the arming register holds something other than DISARMED,
      an unset register included. */
  predicate NotDisarmed(arming: Option<ArmingStatus>)
  {
    arming != Some(Disarmed)
  }
}
