/** The daemon's sensor dictionary (api/src/arduino_daemon.py:163-171) as a value,
    and the JSON document `save_sensor_data` turns it into. */
module Sensors {
  import opened Wrappers
  import opened Io

  /** The values `daemon_status` takes. */
  datatype DaemonStatus = Starting | Connected | Disconnected | Stopped | Error {
    function Name(): string {
      match this
      case Starting => "starting"
      case Connected => "connected"
      case Disconnected => "disconnected"
      case Stopped => "stopped"
      case Error => "error"
    }
  }

  /** One state of the dictionary. A reading of `None` is JSON null; the two servo
      keys are absent (`None`) until the first `Servo:` line adds them. */
  datatype Snapshot = Snapshot(
    temperature: Option<real>,
    airHumidity: Option<real>,
    soilHumidity: Option<int>,
    airStatus: string,
    groundStatus: string,
    lastUpdated: Option<Stamp>,
    daemonStatus: DaemonStatus,
    lastServoAction: Option<string>,
    lastServoTime: Option<Stamp>)

  /** The dictionary `run_daemon` starts from. */
  const Initial := Snapshot(None, None, None, "unknown", "unknown", None, Starting, None, None)

  function FloatOrNull(x: Option<real>): Value {
    if x.Some? then VFloat(x.value) else VNull
  }

  function IntOrNull(x: Option<int>): Value {
    if x.Some? then VInt(x.value) else VNull
  }

  function StrOrNull(x: Option<string>): Value {
    if x.Some? then VStr(x.value) else VNull
  }

  /** The seven keys every saved document holds. */
  const FixedKeys: set<string> :=
    {"temperature", "air_humidity", "soil_humidity", "air_status", "ground_status",
     "last_updated", "daemon_status"}

  /** The two keys the first `Servo:` line adds. */
  const ServoKeys: set<string> := {"last_servo_action", "last_servo_time"}

  /** The document `json.dump` writes for `s` and `json.load` reads back: the seven fixed
      keys, and the two servo keys once a servo action has been seen, and nothing else. */
  function ToDoc(s: Snapshot): (d: Doc)
    ensures d.Keys == if s.lastServoAction.Some? then FixedKeys + ServoKeys else FixedKeys
    ensures d != map[]
    ensures "temperature" in d && "air_humidity" in d && "soil_humidity" in d
    ensures "air_status" in d && "ground_status" in d && "daemon_status" in d && "last_updated" in d
    ensures d["temperature"] == FloatOrNull(s.temperature) && d["air_humidity"] == FloatOrNull(s.airHumidity)
    ensures d["soil_humidity"] == IntOrNull(s.soilHumidity) && d["last_updated"] == StrOrNull(s.lastUpdated)
    ensures d["air_status"] == VStr(s.airStatus) && d["ground_status"] == VStr(s.groundStatus)
    ensures d["daemon_status"] == VStr(s.daemonStatus.Name())
    ensures s.lastServoAction.Some? ==>
      && d["last_servo_action"] == VStr(s.lastServoAction.value)
      && d["last_servo_time"] == StrOrNull(s.lastServoTime)
  {
    var fixed := map[
      "temperature" := FloatOrNull(s.temperature),
      "air_humidity" := FloatOrNull(s.airHumidity),
      "soil_humidity" := IntOrNull(s.soilHumidity),
      "air_status" := VStr(s.airStatus),
      "ground_status" := VStr(s.groundStatus),
      "last_updated" := StrOrNull(s.lastUpdated),
      "daemon_status" := VStr(s.daemonStatus.Name())];
    assert fixed.Keys == FixedKeys;
    if s.lastServoAction.Some? then
      fixed["last_servo_action" := VStr(s.lastServoAction.value)]["last_servo_time" := StrOrNull(s.lastServoTime)]
    else fixed
  }
}
