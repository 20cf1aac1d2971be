/** The API's decisions over the sensor file and the command file (api/src/main.py):
    reading the snapshot, writing a command, turning a snapshot into the plant
    information it serves, the health status, the `/plant` guard and `/water`. */
module Api {
  import opened Wrappers
  import opened Text
  import opened Models
  import opened Io
  import opened Sensors
  import opened Classifier
  import ArduinoDaemon

  /** `read_sensor_data`: the document, or `None` when the file is absent or its
      contents cannot be read or decoded. */
  function ReadSensorData(file: MirrorFile): (r: Option<Doc>)
    ensures r.None? <==> file.NoFile? || file.Unreadable?
    ensures r.Some? ==> file == Holds(r.value)
  {
    match file
    case Holds(doc) => Some(doc)
    case _ => None
  }

  /** `send_command`: on success the command file holds exactly `command`; on an
      `IOError` (`ioOk` false) the call returns false and the file is left as it was. */
  method SendCommand(dir: DataDir, command: string, ioOk: bool) returns (ok: bool)
    modifies dir`command, dir`commandWrites
    ensures ok == ioOk
    ensures dir.command == if ok then Some(command) else old(dir.command)
    ensures dir.commandWrites == if ok then old(dir.commandWrites) + [command] else old(dir.commandWrites)
  {
    if !ioOk {
      return false;
    }
    dir.command := Some(command);
    dir.commandWrites := dir.commandWrites + [command];
    ok := true;
  }

  // ---------------------------------------------------------------------------
  // build_plant_info

  /** Python's `str(v)` for a JSON scalar; how a float prints is a parameter. */
  function Show(v: Value, floatRepr: real -> string): string {
    match v
    case VNull => "None"
    case VBool(b) => if b then "True" else "False"
    case VInt(i) => IntToString(i)
    case VFloat(x) => floatRepr(x)
    case VStr(s) => s
  }

  /** `f"{v}{unit}" if v is not None else "--{unit}"`. */
  function Render(v: Value, unit: char, floatRepr: real -> string): (r: string)
    ensures |r| > 0 && r[|r| - 1] == unit
    ensures v.VNull? ==> r == "--" + [unit]
    ensures !v.VNull? ==> r[..|r| - 1] == Show(v, floatRepr)
  {
    if v.VNull? then "--" + [unit] else Show(v, floatRepr) + [unit]
  }

  /** `air_status_map.get(data.get("air_status", ""), AirStatus.MODERATE)`. */
  function AirStatusOf(v: Value): (r: AirStatus)
    ensures forall a: AirStatus :: v == VStr(a.Name()) ==> r == a
    ensures (forall a: AirStatus :: v != VStr(a.Name())) ==> r == AirModerate
  {
    if v == VStr(AirOptimal.Name()) then AirOptimal
    else if v == VStr(AirModerate.Name()) then AirModerate
    else if v == VStr(AirBad.Name()) then AirBad
    else AirModerate
  }

  /** `ground_status_map.get(data.get("ground_status", ""), GroundStatus.DRY)`. */
  function GroundStatusOf(v: Value): (r: GroundStatus)
    ensures forall g: GroundStatus :: v == VStr(g.Name()) ==> r == g
    ensures (forall g: GroundStatus :: v != VStr(g.Name())) ==> r == GroundDry
  {
    if v == VStr(GroundOptimal.Name()) then GroundOptimal
    else if v == VStr(GroundDry.Name()) then GroundDry
    else GroundDry
  }

  /** The `PlantInfo` model: the air and ground display strings and statuses. */
  datatype PlantInfo = PlantInfo(
    temperature: string, airHumidity: string, airStatus: AirStatus,
    groundHumidity: string, groundStatus: GroundStatus)

  /** `build_plant_info(data)`: a null or absent reading shows as `--` and its unit,
      any other as `str(value)` and its unit; a stored label shows as its status, and a
      missing or unrecognised one as moderate air or dry ground. */
  function BuildPlantInfo(d: Doc, floatRepr: real -> string): (p: PlantInfo)
    ensures Lookup(d, "temperature") == VNull ==> p.temperature == "--C"
    ensures Lookup(d, "temperature") != VNull ==>
      p.temperature == Show(Lookup(d, "temperature"), floatRepr) + "C"
    ensures Lookup(d, "air_humidity") == VNull ==> p.airHumidity == "--%"
    ensures Lookup(d, "air_humidity") != VNull ==>
      p.airHumidity == Show(Lookup(d, "air_humidity"), floatRepr) + "%"
    ensures Lookup(d, "soil_humidity") == VNull ==> p.groundHumidity == "--%"
    ensures Lookup(d, "soil_humidity") != VNull ==>
      p.groundHumidity == Show(Lookup(d, "soil_humidity"), floatRepr) + "%"
    ensures forall a: AirStatus :: Lookup(d, "air_status") == VStr(a.Name()) ==> p.airStatus == a
    ensures (forall a: AirStatus :: Lookup(d, "air_status") != VStr(a.Name())) ==> p.airStatus == AirModerate
    ensures "air_status" !in d ==> p.airStatus == AirModerate
    ensures forall g: GroundStatus :: Lookup(d, "ground_status") == VStr(g.Name()) ==> p.groundStatus == g
    ensures (forall g: GroundStatus :: Lookup(d, "ground_status") != VStr(g.Name())) ==> p.groundStatus == GroundDry
    ensures "ground_status" !in d ==> p.groundStatus == GroundDry
  {
    PlantInfo(
      Render(Lookup(d, "temperature"), 'C', floatRepr),
      Render(Lookup(d, "air_humidity"), '%', floatRepr),
      AirStatusOf(Lookup(d, "air_status")),
      Render(Lookup(d, "soil_humidity"), '%', floatRepr),
      GroundStatusOf(Lookup(d, "ground_status")))
  }

  // ---------------------------------------------------------------------------
  // The endpoints' decisions

  /** The `daemon_status` `/health` reports: "no_data" for no snapshot or an empty one
      (an empty dict is falsy), "unknown" when the key is absent, else the stored value. */
  function HealthDaemonStatus(r: Option<Doc>): (v: Value)
    ensures r.None? || r == Some(map[]) ==> v == VStr("no_data")
    ensures r.Some? && r.value != map[] && "daemon_status" !in r.value ==> v == VStr("unknown")
    ensures r.Some? && "daemon_status" in r.value ==> v == r.value["daemon_status"]
  {
    if r.None? || r.value == map[] then VStr("no_data")
    else if "daemon_status" in r.value then r.value["daemon_status"]
    else VStr("unknown")
  }

  /** What `/plant` answers: the plant information with the stored stamp, or 503. */
  datatype PlantReply =
    | Served(info: PlantInfo, lastUpdated: Value)
    | Unavailable(status: int, code: string)

  /** `get_plant_info`: served only from a non-empty snapshot whose temperature is not null. */
  function GetPlantInfo(r: Option<Doc>, floatRepr: real -> string): (p: PlantReply)
    ensures p.Served? <==> r.Some? && r.value != map[] && Lookup(r.value, "temperature") != VNull
    ensures p.Served? ==> p.info == BuildPlantInfo(r.value, floatRepr) && p.lastUpdated == Lookup(r.value, "last_updated")
    ensures p.Unavailable? ==> p.status == 503 && p.code == "NO_SENSOR_DATA"
  {
    if r.Some? && r.value != map[] && Lookup(r.value, "temperature") != VNull then
      Served(BuildPlantInfo(r.value, floatRepr), Lookup(r.value, "last_updated"))
    else Unavailable(503, "NO_SENSOR_DATA")
  }

  /** What `/water` answers. */
  datatype WaterReply =
    | Watered(duration: int, message: string)
    | Refused(status: int, code: string, details: Option<string>)

  /** The smallest and largest duration `/water` accepts, in seconds. */
  const MinDuration := 1
  const MaxDuration := 30

  /** The duration a `WateringRequest` carries: the one given, or the default of 5 s. */
  function RequestDuration(given: Option<int>): (d: int)
    ensures given.Some? ==> d == given.value
    ensures given.None? ==> d == DefaultDuration && MinDuration <= d <= MaxDuration
  {
    if given.Some? then given.value else DefaultDuration
  }

  /** `trigger_watering`'s answer, given whether the opening "go" could be written. */
  function WateringReply(duration: int, openOk: bool): (r: WaterReply)
    ensures r.Refused? && r.status == 400 <==> duration < MinDuration || duration > MaxDuration
    ensures r.Refused? && r.status == 400 ==>
      r.code == "INVALID_DURATION" && r.details == Some("Received: " + IntToString(duration))
    ensures r.Refused? && r.status == 503 <==> MinDuration <= duration <= MaxDuration && !openOk
    ensures r.Refused? && r.status == 503 ==> r.code == "COMMAND_FAILED" && r.details.None?
    ensures r.Watered? <==> MinDuration <= duration <= MaxDuration && openOk
    ensures r.Watered? ==>
      r.duration == duration && r.message == "Watering completed for " + IntToString(duration) + " seconds"
  {
    if duration < MinDuration || duration > MaxDuration then
      Refused(400, "INVALID_DURATION", Some("Received: " + IntToString(duration)))
    else if !openOk then Refused(503, "COMMAND_FAILED", None)
    else Watered(duration, "Watering completed for " + IntToString(duration) + " seconds")
  }

  /** The commands `/water` writes: none for a refused duration, the opening "go" if it
      succeeds, and then the closing "go" if that succeeds too. */
  function GoWrites(duration: int, openOk: bool, closeOk: bool): (w: seq<string>)
    ensures |w| <= 2 && forall i :: 0 <= i < |w| ==> w[i] == "go"
    ensures w == [] <==> WateringReply(duration, openOk).Refused?
    ensures |w| == 2 <==> WateringReply(duration, openOk).Watered? && closeOk
  {
    if duration < MinDuration || duration > MaxDuration || !openOk then []
    else if closeOk then ["go", "go"]
    else ["go"]
  }

  /** `trigger_watering(request)`: validate, write "go" to open the valve, wait, write "go"
      to close it; a failed close is only logged. `openOk`/`closeOk` are the outcomes of
      the two file writes. */
  method TriggerWatering(dir: DataDir, duration: int, openOk: bool, closeOk: bool) returns (reply: WaterReply)
    modifies dir`command, dir`commandWrites
    ensures reply == WateringReply(duration, openOk)
    ensures dir.commandWrites == old(dir.commandWrites) + GoWrites(duration, openOk, closeOk)
    ensures dir.command == if GoWrites(duration, openOk, closeOk) == [] then old(dir.command) else Some("go")
  {
    if duration < MinDuration || duration > MaxDuration {
      return Refused(400, "INVALID_DURATION", Some("Received: " + IntToString(duration)));
    }
    var valveOpen := SendCommand(dir, "go", openOk);
    if !valveOpen {
      return Refused(503, "COMMAND_FAILED", None);
    }
    var valveClosed := SendCommand(dir, "go", closeOk);
    reply := Watered(duration, "Watering completed for " + IntToString(duration) + " seconds");
  }

  // ---------------------------------------------------------------------------
  // The API reading what the daemon saved

  /** `/health` reports the status the daemon last saved. */
  lemma HealthShowsSavedStatus(s: Snapshot)
    ensures HealthDaemonStatus(ReadSensorData(Holds(ToDoc(s)))) == VStr(s.daemonStatus.Name())
  {
  }

  /** `/plant` serves a saved snapshot exactly when its temperature reading exists. */
  lemma PlantServedIffTemperature(s: Snapshot, floatRepr: real -> string)
    ensures GetPlantInfo(ReadSensorData(Holds(ToDoc(s))), floatRepr).Served? <==> s.temperature.Some?
  {
  }

  /** A saved, settled snapshot with all readings is shown with the band names the
      readings fall into; the start-up labels "unknown" show as moderate and dry. */
  lemma ShownStatuses(s: Snapshot, floatRepr: real -> string)
    ensures AllReadings(s) && LabelsAgree(s) ==>
      && BuildPlantInfo(ToDoc(s), floatRepr).airStatus == AirBand(s.temperature.value, s.airHumidity.value)
      && BuildPlantInfo(ToDoc(s), floatRepr).groundStatus == GroundBand(s.soilHumidity.value as real)
    ensures s.airStatus == "unknown" ==> BuildPlantInfo(ToDoc(s), floatRepr).airStatus == AirModerate
    ensures s.groundStatus == "unknown" ==> BuildPlantInfo(ToDoc(s), floatRepr).groundStatus == GroundDry
  {
  }

  /** The ground humidity shown for a saved soil reading is its digits and '%', and the
      digits read back as the reading. */
  lemma SoilShownRoundTrip(s: Snapshot, floatRepr: real -> string)
    requires s.soilHumidity.Some? && s.soilHumidity.value >= 0
    ensures var t := BuildPlantInfo(ToDoc(s), floatRepr).groundHumidity;
      && t[|t| - 1] == '%' && All(t[..|t| - 1], Digit)
      && DigitsValue(t[..|t| - 1]) == s.soilHumidity.value
  {
    var t := BuildPlantInfo(ToDoc(s), floatRepr).groundHumidity;
    assert t[..|t| - 1] == IntToString(s.soilHumidity.value);
  }

  /** A snapshot saved before any reading arrived is not served: `/plant` answers 503,
      whatever status the daemon saved with it (connected, disconnected, error, stopped). */
  lemma StartupNotServed(st: DaemonStatus, now: Stamp, floatRepr: real -> string)
    ensures GetPlantInfo(ReadSensorData(Holds(ToDoc(Initial.(lastUpdated := Some(now), daemonStatus := st)))), floatRepr)
      == Unavailable(503, "NO_SENSOR_DATA")
  {
  }

  /** A request without a duration waters for 5 s when the valve opens. */
  lemma DefaultRequestWaters()
    ensures WateringReply(RequestDuration(None), true) == Watered(5, "Watering completed for 5 seconds")
    ensures GoWrites(RequestDuration(None), true, true) == ["go", "go"]
  {
    assert NatDigits(5) == "5";
  }

  /** While every save succeeds, `/health` reports the status the daemon's loop is in
      after any script of events, from its first save on. */
  lemma HealthTracksDaemon(w: ArduinoDaemon.World, script: seq<ArduinoDaemon.Input>)
    requires ArduinoDaemon.StatusSaved(w)
    requires forall i :: 0 <= i < |script| ==> script[i].writeOk
    ensures var e := ArduinoDaemon.RunFrom(w, script);
      HealthDaemonStatus(ReadSensorData(e.mirror)) == VStr(e.data.daemonStatus.Name())
  {
    ArduinoDaemon.RunKeepsStatusSaved(w, script);
  }

  /** After the first interrupt, if its save succeeds, `/health` reports "stopped". */
  lemma HealthShowsStopped(w: ArduinoDaemon.World, script: seq<ArduinoDaemon.Input>, i: nat)
    requires w.running && i < |script|
    requires script[i].step == ArduinoDaemon.Raise(ArduinoDaemon.Interrupt) && script[i].writeOk
    requires forall j :: 0 <= j < i ==> script[j].step != ArduinoDaemon.Raise(ArduinoDaemon.Interrupt)
    ensures HealthDaemonStatus(ReadSensorData(ArduinoDaemon.RunFrom(w, script).mirror)) == VStr("stopped")
  {
    ArduinoDaemon.InterruptLeavesStopped(w, script, i);
  }
}
