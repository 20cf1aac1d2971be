# SmartPot Waterer host logic in Dafny

This project models the host side of the SmartPot plant waterer and proves properties
of the model. The host side has three parts:

- **The daemon** (`api/src/arduino_daemon.py`) keeps a serial link to the Arduino. It
  parses the lines the device prints (`Temp: 21.20 C`, `Humi: 45.00 %`, `Soil: 73 %`,
  `Servo: ...`) into a sensor dictionary and classifies the air and ground. It saves the
  dictionary to `sensor_data.json`, relays the command that the API leaves in
  `command.txt`, and tracks `daemon_status` through its connect and retry loop.
- **The API** (`api/src/main.py`) reads that snapshot. It turns the snapshot into the
  plant information it serves, reports the daemon status on `/health`, and guards
  `/plant`. `/water` validates a duration and writes the two `go` commands that open and
  close the valve.
- **The serial controller** (`api/arduino/arduino.py`) is a second way to talk to the
  device. It reconnects on demand, writes newline-terminated commands, and parses a
  `KEY:value,KEY:value` reply.

## Layout

- `wrappers.dfy`: `Option`.
- `text.dfy`: the Python string operations the core relies on:
  - `str.isspace` and `strip()`;
  - `split(",")` and `split(":", 1)`;
  - `str(int)`;
  - `float()` and `int()` on the strings the regular expressions capture.
- `models.dfy`: the `AirStatus` and `GroundStatus` enumerations of the API schema and
  the default watering duration.
- `io.dfy`: a JSON scalar and document; the data directory with its two files; a serial port.
- `sensors.dfy`: the sensor dictionary as a value (`Snapshot`) and the JSON document it is saved as.
- `line_parser.dfy`: `parse_sensor_line`'s decision, stated against the regular expressions.
- `classifier.dfy`: `determine_statuses`, including where it raises.
- `daemon.dfy`: the daemon's in-place dictionary (class `SensorData`), the command relay,
  one received line, the `run_daemon` state machine, the loop's whole state as a value
  (`World`, `Next`, `RunFrom`), and the process (class `Daemon`) proved against it.
- `api.dfy`: `main.py`'s file operations and endpoint decisions.
- `controller.dfy`: `ArduinoController` and its reply parser.

## Behaviour of the code a reader may not expect

- **Null readings make the classifier raise.** The classifier does not treat them as 0.
  The daemon's dictionary starts with `temperature`, `air_humidity` and `soil_humidity`
  present and `None`. `data.get(key, 0)` then gives `None`, not 0, and `18 <= None`
  raises `TypeError`. So the first lines after start-up are parsed but not fully
  classified, and not saved. A `0` default only applies to an absent key, and the daemon never has one.
- **A raise inside `determine_statuses` can leave a label half-updated.** When the
  ground comparison raises, the air label has already been written in place.
- **A failed relay keeps the command file.** If the read, the write or the flush raises,
  `check_and_send_command` returns False and leaves the file. If the unlink raises after
  a successful write, the same applies: the command has already gone out, the file
  stays, and the next tick sends it again, so the device receives the command twice.
- **A read error does not disconnect.** An exception from `readline()` or from parsing
  is caught inside the inner loop and only logged. The status changes only for
  exceptions that reach the outer handlers.
- **An unparsable number is a raise the read loop swallows.** For example, a malformed
  number in `Temp: 1.2.3 C` makes `float()` raise. Nothing is assigned and nothing is
  saved, as for a line that matches no pattern.

## Model

| member | source | states |
|---|---|---|
| Text.Strip | api/src/arduino_daemon.py:58 | `strip()` returns a trimmed string no longer than its input |
| Text.StripPadded | api/src/arduino_daemon.py:58 | stripping any whitespace from around a trimmed string gives back exactly that string |
| Text.StripIdempotent | api/src/arduino_daemon.py:58 | stripping twice is stripping once |
| Text.SpanEnd | api/src/arduino_daemon.py:61 | a greedy run of one character class stops at the first character outside it |
| Text.DecimalOfParts | api/src/arduino_daemon.py:63 | `DecimalValue`, the model of `float()`: `float("a.b")` for digit strings a, b (not both empty) is a + b/10^len(b) |
| Text.DecimalOfDigits | api/src/arduino_daemon.py:63 | `float` of a digit string is its integer value |
| Text.DecimalRejects | api/src/arduino_daemon.py:63 | `float` of a `[\d.]+` capture raises exactly when it has no digit or has two dots |
| Text.DigitsRoundTrip | api/arduino/arduino.py:58 | the decimal digits `str(n)` writes read back as n |
| Text.IntToString | api/src/main.py:255 | `str(n)` is the digits of n, with a leading '-' for a negative n, and no leading zero unless n is 0 |
| Text.NatDigits | api/arduino/arduino.py:58 | `str(n)` of a natural number is a non-empty digit string that starts with '0' exactly when n is 0 |
| Text.CanonicalDigitsUnique | api/arduino/arduino.py:58 | every digit string without a leading zero (other than "0") is `str` of its own value, so `str(n)` is the only such string for n |
| Text.Split | api/arduino/arduino.py:73 | no piece of `split(sep)` contains the separator |
| Text.JoinSplit | api/arduino/arduino.py:73 | joining the pieces of `split(sep)` with sep gives back the string |
| Text.SplitJoin | api/arduino/arduino.py:73 | splitting the join of separator-free pieces gives back the pieces |
| Text.PartitionAtFirst | api/arduino/arduino.py:75 | `split(":", 1)` is a lossless partition at the first ':' whose head has no ':' |
| LineParser.Capture | api/src/arduino_daemon.py:61-75 | a successful match captures a non-empty group of the pattern's class |
| LineParser.CaptureSound | api/src/arduino_daemon.py:61-75 | a captured group sits where the regular expression `prefix\s*(group)\s*unit` puts it |
| LineParser.CaptureComplete | api/src/arduino_daemon.py:61-75 | wherever the line has the regular expression's shape, the match captures exactly that group |
| LineParser.CaptureFailsIffNoShape | api/src/arduino_daemon.py:61-75 | the match fails exactly when no placement of the regular expression fits the line |
| LineParser.ParseLine | api/src/arduino_daemon.py:58-84 | a blank line is ignored, a soil reading is never negative, a servo line is the whole stripped line, and only a non-empty `[\d.]+` group can be unparsable; a soil group longer than `int()`'s 4300-digit limit is unparsable |
| LineParser.Apply | api/src/arduino_daemon.py:60-84 | each update writes only its own field group; an ignored or unparsable line changes nothing; no update touches the labels, the stamp or the status |
| LineParser.ApplyCommutes | api/src/arduino_daemon.py:60-84 | lines for different field groups give the same dictionary in either order |
| LineParser.ParseLineStrips | api/src/arduino_daemon.py:58 | the line is stripped before any pattern is tried |
| LineParser.PrefixesExclusive | api/src/arduino_daemon.py:61-79 | at most one of the four prefixes can start a line, so the pattern order decides nothing |
| LineParser.CaptureNeedsPrefix | api/src/arduino_daemon.py:61-75 | a line that does not start with the pattern's prefix never matches it |
| LineParser.TemperatureLine | api/src/arduino_daemon.py:61-64 | a `Temp:` line sets the temperature to `float` of its group, or raises |
| LineParser.HumidityLine | api/src/arduino_daemon.py:67-70 | a `Humi:` line sets the air humidity to `float` of its group, or raises |
| LineParser.SoilLine | api/src/arduino_daemon.py:73-76 | a `Soil:` line sets the soil humidity to `int` of its digits, and raises when they are more than 4300 |
| LineParser.ServoLine | api/src/arduino_daemon.py:79-82 | a line starting `Servo:` is stored whole, stripped, as the servo action |
| LineParser.IgnoredLine | api/src/arduino_daemon.py:58-84 | a line is ignored exactly when none of the three patterns matches and it does not start with `Servo:` |
| LineParser.UnparsableLine | api/src/arduino_daemon.py:61-76 | a line raises only when `float()` gets a Temp or Humi group with no digit or two dots, or `int()` gets a Soil group of more than 4300 digits |
| LineParser.DeviceLineCaptures | api/src/arduino_daemon.py:52-56 | the device's `<prefix> <group> <unit>` line captures the group back |
| LineParser.TemperatureReading | api/src/arduino_daemon.py:52-54 | the device line `Temp: a.b C` reads back as the temperature a.b |
| LineParser.HumidityReading | api/src/arduino_daemon.py:55 | the device line `Humi: a.b %` reads back as the air humidity a.b |
| LineParser.SoilReading | api/src/arduino_daemon.py:56 | the device line `Soil: d %` reads back as the soil humidity int(d) when d has at most 4300 digits, and raises otherwise |
| Classifier.Held | api/src/arduino_daemon.py:89-90 | a `None` reading is null, not 0, for `data.get` |
| Classifier.HeldInt | api/src/arduino_daemon.py:91 | a `None` soil reading is null, not 0 |
| Classifier.ClassifyAir | api/src/arduino_daemon.py:94-99 | the air comparison raises exactly on a null temperature, or on a null humidity with the temperature in 15..32; otherwise it gives the air band, or bad for a null humidity |
| Classifier.ClassifyGround | api/src/arduino_daemon.py:102 | the ground comparison raises exactly on a null reading, otherwise gives the ground band |
| Classifier.AirBand | api/src/arduino_daemon.py:94-99 | optimal iff 18≤t≤28 and 40≤h≤70; moderate iff not optimal and 15≤t≤32 and 30≤h≤80; bad otherwise |
| Classifier.GroundBand | api/src/arduino_daemon.py:101-102 | optimal exactly from 40 up, dry below |
| Classifier.Classify | api/src/arduino_daemon.py:87-104 | only the two labels change; the call raises exactly when the air comparison raises or the soil reading is null; an air raise leaves the dictionary as it was, a ground raise comes after the air label is written, and a call that returns has written both |
| Classifier.ClassifyComplete | api/src/arduino_daemon.py:87-104 | with all three readings present the call never raises and writes the band names |
| Classifier.ClassifyRaisesUntilReadings | api/src/arduino_daemon.py:89-94 | the call raises while the temperature or soil reading is still `None`, as at start-up |
| Classifier.ClassifyWritesBands | api/src/arduino_daemon.py:94-102 | a call that returns has written the ground band and the air band (bad for a null humidity) |
| Classifier.GroundRaiseKeepsGround | api/src/arduino_daemon.py:101-102 | a raising call leaves the ground label as it was |
| Classifier.MissingCountsAsZero | api/src/arduino_daemon.py:89-91 | an absent key counts as 0: bad air, dry ground |
| Classifier.ClassifyIdempotent | api/src/arduino_daemon.py:87-104 | classifying a classified dictionary again changes nothing |
| Classifier.Boundaries | api/src/arduino_daemon.py:94-102 | the band limits are inclusive (18, 28, 15, 32, 40 hold; 33, 81, 39 fall outside) |
| Sensors.ToDoc | api/src/arduino_daemon.py:107-116 | the saved document holds exactly the seven fixed keys, plus the two servo keys once a servo action was seen, each with the dictionary's value |
| ArduinoDaemon.SensorData.constructor | api/src/arduino_daemon.py:163-171 | the dictionary starts with no readings, unknown labels, no stamp and status starting |
| ArduinoDaemon.SensorData.ParseSensorLine | api/src/arduino_daemon.py:48-84 | the dictionary becomes the parsed update applied to it; it raises exactly on an unparsable number |
| ArduinoDaemon.SensorData.DetermineStatuses | api/src/arduino_daemon.py:87-104 | the dictionary becomes the classified one, including labels written before a raise |
| ArduinoDaemon.SensorData.Save | api/src/arduino_daemon.py:107-118 | `last_updated` is stamped in memory whether or not the write succeeds; the file holds the stamped dictionary only if it does |
| ArduinoDaemon.Saved | api/src/arduino_daemon.py:107-118 | a successful save leaves a document holding the saved status; a failed one leaves the file as it was |
| ArduinoDaemon.Relay | api/src/arduino_daemon.py:125-145 | True exactly when a file exists and no step fails; the file goes exactly when True; the link gets the trimmed command and a newline, and a flush, only for a non-empty command |
| ArduinoDaemon.CheckAndSendCommand | api/src/arduino_daemon.py:125-145 | the return value, the command file and the link's output and flush are those of the relay |
| ArduinoDaemon.RelayResendsAfterFailedUnlink | api/src/arduino_daemon.py:134-145 | a command whose unlink fails has been written, stays in the file, and is written again on the next tick |
| ArduinoDaemon.HandleLine | api/src/arduino_daemon.py:187-196 | a line is saved exactly when it is non-blank, parses and classifies without raising; a blank or unparsable line changes nothing; a line whose classification raises keeps the parsed update and the labels written before the raise, unsaved; the status never changes |
| ArduinoDaemon.HandleLineSettles | api/src/arduino_daemon.py:187-196 | once all three readings exist the labels equal their band names, and every line keeps it so |
| ArduinoDaemon.SavedLabels | api/src/arduino_daemon.py:192-194 | a saved line's labels are the band names of its readings |
| ArduinoDaemon.FirstReadings | api/src/arduino_daemon.py:187-196 | from start-up, the lines Temp 21.20, Humi 45.00 and Soil 73 give 21.2/45.0/73, optimal and optimal, with only the third saved |
| ArduinoDaemon.FaultStatus | api/src/arduino_daemon.py:201-218 | only an interrupt stores stopped; no handler stores connected or starting |
| ArduinoDaemon.NextStatus | api/src/arduino_daemon.py:173-218 | opening sets connected, a tick keeps the status, a fault stores its handler's status, and stopped is final |
| ArduinoDaemon.StatusAfter | api/src/arduino_daemon.py:208-212 | a script started stopped stays stopped |
| ArduinoDaemon.StoppedIffInterrupted | api/src/arduino_daemon.py:173-218 | the daemon ends stopped exactly when an interrupt reached it |
| ArduinoDaemon.StoppedAfter | api/src/arduino_daemon.py:208-212 | a daemon stopped part-way through a script is stopped at its end |
| ArduinoDaemon.Next | api/src/arduino_daemon.py:173-218 | an ended loop is unchanged; only an interrupt ends it; the status moves as `NextStatus` says; a fault closes the port, stamps and saves; only a tick touches the command file and the port output |
| ArduinoDaemon.RunFrom | api/src/arduino_daemon.py:173-212 | once the loop has ended, the rest of a script changes nothing |
| ArduinoDaemon.NextConsistent | api/src/arduino_daemon.py:173-218 | every event keeps stopped iff ended, port open iff connected, and the labels settled |
| ArduinoDaemon.RunConsistent | api/src/arduino_daemon.py:173-218 | a script keeps that invariant and ends in the state machine's status |
| ArduinoDaemon.HaltedStays | api/src/arduino_daemon.py:208-212 | after the `break` no later event changes anything |
| ArduinoDaemon.RunningUntilInterrupt | api/src/arduino_daemon.py:201-218 | without an interrupt the outer loop keeps running |
| ArduinoDaemon.InterruptLeavesStopped | api/src/arduino_daemon.py:208-212 | the first interrupt ends the loop with the port closed, the status stopped and, when its save succeeds, that final dictionary in the file |
| ArduinoDaemon.NextKeepsStatusSaved | api/src/arduino_daemon.py:177-217 | while saves succeed, an event keeps the file's `daemon_status` equal to the current status |
| ArduinoDaemon.RunKeepsStatusSaved | api/src/arduino_daemon.py:177-217 | the same over any script whose saves succeed |
| ArduinoDaemon.FirstSaveStoresStatus | api/src/arduino_daemon.py:179-217 | the save on opening the port or on a fault stores the new status |
| ArduinoDaemon.Daemon.constructor | api/src/arduino_daemon.py:160-171 | the daemon starts running with the initial dictionary and no open port |
| ArduinoDaemon.Daemon.Connect | api/src/arduino_daemon.py:177-180 | opening the port sets connected and saves |
| ArduinoDaemon.Daemon.Handle | api/src/arduino_daemon.py:201-218 | a fault closes the port, stores its status and saves; only an interrupt ends the loop |
| ArduinoDaemon.Daemon.ReceiveLine | api/src/arduino_daemon.py:187-196 | the dictionary and the file change as one received line says |
| ArduinoDaemon.Daemon.TickOnce | api/src/arduino_daemon.py:182-199 | one pass relays the command (file, output and flush as the relay says), then changes the dictionary and the file as the received line says, without changing the status |
| ArduinoDaemon.Daemon.Step | api/src/arduino_daemon.py:173-218 | the process's whole new state (dictionary, both files, port, loop flag) is `Next` of the old one, and the invariant holds |
| ArduinoDaemon.Daemon.Run | api/src/arduino_daemon.py:173-218 | the process's final state is `RunFrom` of the initial one, stopping at the first interrupt; the invariant holds and the status is the state machine's |
| Io.Lookup | api/src/main.py:86-88 | `d.get(key)` is None for an absent key |
| Api.ReadSensorData | api/src/main.py:59-69 | the document, or None exactly when the file is absent or unreadable |
| Api.SendCommand | api/src/main.py:72-81 | on success the command file holds exactly the command; on IOError False and the file is unchanged |
| Api.Render | api/src/main.py:106-111 | a null reading renders as `--` and the unit, any other as its text and the unit |
| Api.AirStatusOf | api/src/main.py:91-101 | a stored air label maps to its enum, anything else to moderate |
| Api.GroundStatusOf | api/src/main.py:96-102 | a stored ground label maps to its enum, anything else to dry |
| Api.BuildPlantInfo | api/src/main.py:84-114 | a null or absent reading shows as `--C` or `--%`, any other as its text and unit; a stored label shows as its status, a missing or unrecognised one as moderate air or dry ground |
| Api.HealthDaemonStatus | api/src/main.py:203 | no_data for no or an empty snapshot, unknown for an absent key, else the stored value |
| Api.GetPlantInfo | api/src/main.py:221-238 | served exactly for a non-empty snapshot with a non-null temperature, otherwise 503 NO_SENSOR_DATA |
| Api.RequestDuration | api/src/models.py:77-78 | a request without `duration_seconds` asks for 5 s, which lies within 1..30 |
| Api.WateringReply | api/src/main.py:249-285 | 400 INVALID_DURATION exactly outside 1..30; 503 COMMAND_FAILED exactly when the opening write fails; otherwise success with the duration |
| Api.GoWrites | api/src/main.py:259-276 | only "go" is written, at most twice, nothing on a refusal, twice exactly on success with a working close |
| Api.TriggerWatering | api/src/main.py:241-286 | the reply is the decision above and the command file receives exactly those writes |
| Api.HealthShowsSavedStatus | api/src/main.py:203 | `/health` reports the status the daemon last saved |
| Api.PlantServedIffTemperature | api/src/main.py:223 | a saved snapshot is served exactly when its temperature exists |
| Api.ShownStatuses | api/src/main.py:101-102 | settled labels show as the readings' bands; the start-up labels show as moderate and dry |
| Api.SoilShownRoundTrip | api/src/main.py:111 | the shown soil humidity is its digits and '%', and the digits read back as the reading |
| Api.StartupNotServed | api/src/main.py:223-238 | a snapshot saved before any reading, with whatever status, gets 503 NO_SENSOR_DATA |
| Api.DefaultRequestWaters | api/src/main.py:241-286 | a request without a duration waters for 5 s and writes "go" twice |
| Api.HealthTracksDaemon | api/src/main.py:203 | while the daemon's saves succeed, `/health` reports the status its loop is in |
| Api.HealthShowsStopped | api/src/main.py:203 | after the daemon's first interrupt, if its save succeeds, `/health` reports stopped |
| Controller.FieldsOf | api/arduino/arduino.py:72-76 | every key comes from a piece that has a ':' |
| Controller.ReplyFields | api/arduino/arduino.py:68-78 | a reply that strips to empty gives None, any other a dictionary |
| Controller.ParseReply | api/arduino/arduino.py:72-77 | the loop builds exactly the left-to-right dictionary of the pieces |
| Controller.ArduinoController.constructor | api/arduino/arduino.py:17 | a new controller has no connection |
| Controller.ArduinoController.Connect | api/arduino/arduino.py:19-31 | success stores a new open connection and returns True; a failure returns False and keeps the field |
| Controller.ArduinoController.Disconnect | api/arduino/arduino.py:33-37 | an open connection is closed; its output and flush count, and otherwise everything, are unchanged |
| Controller.ArduinoController.SendCommand | api/arduino/arduino.py:39-51 | True exactly when a connection is open or reopens and the write succeeds; the connection afterwards; the command goes out once with one newline on the open or new port, no port is flushed, and a closed old port is left untouched |
| Controller.ArduinoController.TriggerWatering | api/arduino/arduino.py:53-58 | as `send_command` for `WATER:<d>`, with d = 5 by default: the result, the connection, and exactly that write or none |
| Controller.ArduinoController.ReadSensorData | api/arduino/arduino.py:60-81 | a dictionary only when connected, the READ write succeeds and a line arrives, and then the parsed reply; the connection afterwards; `READ` and a newline written exactly when the write succeeds, and a closed old port left untouched |
| Controller.FieldsOfKeys | api/arduino/arduino.py:73-76 | a key is present exactly when some piece with a ':' carries it |
| Controller.LastPieceWins | api/arduino/arduino.py:76 | a key's value is that of the last piece that carries it |
| Controller.PieceParts | api/arduino/arduino.py:75 | a piece splits at its first ':', so a value may contain ':' |
| Controller.PieceFields | api/arduino/arduino.py:75-76 | a trimmed `k:v` piece gives key k and value v |
| Controller.PairFields | api/arduino/arduino.py:73-76 | pieces with distinct keys give exactly their pairs |
| Controller.ReplyRoundTrip | api/arduino/arduino.py:71-77 | a reply `K1:v1,K2:v2,...` in the expected format parses back into exactly its pairs |
| Controller.NoColonNoFields | api/arduino/arduino.py:70-77 | a non-empty reply with no ':' gives an empty dictionary, not None |
| Controller.WaterCommand | api/arduino/arduino.py:58 | the command is `WATER:` followed by the digits of a non-negative duration, with no leading zero unless it is 0 |
| Controller.DefaultWaterCommand | api/arduino/arduino.py:53-58 | without an argument the command is `WATER:5` |
| Controller.WaterCommandRoundTrip | api/arduino/arduino.py:58 | `WATER:<d>` splits into WATER and the digits of d, which read back as d |

## Left out

- Physical serial I/O is not modelled: baud rate, timeouts, `in_waiting` and
  `readline()` blocking. A read is an input: a line, nothing waiting, or a raise.
- ArduinoDaemon.Next: a `KeyboardInterrupt` is taken only between events, as a
  `Raise(Interrupt)` step. `parse_sensor_line` updates the dictionary in place
  (arduino_daemon.py:192-193). An interrupt after it returns but before
  `determine_statuses` finishes is not represented. It would make the stopped save
  (arduino_daemon.py:208-211) store new readings with stale or half-updated labels.
  So `Settled` in `Consistent`, and `InterruptLeavesStopped`, hold only for interrupts
  at the modelled points. An interrupt between classification and the save is
  represented, as a received line whose save fails followed by the interrupt.
- `time.sleep` is not modelled. This includes the behaviour of a `KeyboardInterrupt`
  that arrives during the 5-second retry sleep. That sleep sits inside an `except`
  clause, so the interrupt ends the process without the stopped save.
- The daemon opens a new `serial.Serial` for every connection; the model reopens one port.
- Clock readings (`datetime.now().isoformat()`) are opaque strings, one per event. The
  servo time and the save stamp of one line share a reading.
- Floats are `real`. IEEE rounding is not modelled, and neither is how `str(float)`
  prints, which is a parameter of the rendering.
- LineParser.ParseLine: `int()`'s digit limit is taken as Python's default of 4300 digits
  (Python 3.11 and the security releases that added it). An older interpreter has no
  limit, and a limit changed through `PYTHONINTMAXSTRDIGITS` is not modelled.
- Unicode decimal digits are not modelled. They match `\d` and are accepted by `float()`
  and `int()`, but the model accepts ASCII digits only.
- Decoding is not modelled: `decode("utf-8", errors="ignore")` and the undecodable reply
  in the controller, whose `UnicodeDecodeError` is not caught.
- The JSON layout is not modelled (indentation, key order, encoding). Only a document
  of scalars is modelled: a sensor file holding a non-object makes `.get` raise a 500,
  and that case is left out.
- These file failures are not modelled:
  - `mkdir` failures;
  - a partially written sensor file (a torn write shows as an unreadable file);
  - a command file truncated by a write that fails after `open`.
- Concurrency between the daemon and the API is not modelled. The two processes share
  the two files without locking, so lost or overwritten commands are out of scope.
- The FastAPI wiring is not modelled: app creation, CORS, the exception-handler
  envelopes, the response models and uvicorn start-up. Configuration from the
  environment (ports, baud rates, mock mode) is left out too.
- `api/arduino/test_bluetooth.py` is an interactive console harness with no logic of its own.
- Controller.ArduinoController.Connect: other exceptions from `serial.Serial` (such as
  `ValueError`), which propagate, are not modelled.
