/** The daemon's loop (api/src/arduino_daemon.py): the sensor dictionary it updates
    in place, the command relay, and the `daemon_status` state machine of `run_daemon`.
    The serial link, the data directory and the clock are inputs. */
module ArduinoDaemon {
  import opened Wrappers
  import opened Text
  import opened Io
  import opened Sensors
  import opened LineParser
  import opened Classifier
  import opened Models

  /** The dictionary `sensor_data` that `parse_sensor_line`, `determine_statuses` and
      `save_sensor_data` update in place (api/src/arduino_daemon.py:163-171). */
  class SensorData {
    var temperature: Option<real>
    var airHumidity: Option<real>
    var soilHumidity: Option<int>
    var airStatus: string
    var groundStatus: string
    var lastUpdated: Option<Stamp>
    var daemonStatus: DaemonStatus
    var lastServoAction: Option<string>
    var lastServoTime: Option<Stamp>

    /** The dictionary's contents as a value. */
    function View(): Snapshot
      reads this
    {
      Snapshot(temperature, airHumidity, soilHumidity, airStatus, groundStatus,
               lastUpdated, daemonStatus, lastServoAction, lastServoTime)
    }

    /** The dictionary `run_daemon` builds before its loop. */
    constructor ()
      ensures View() == Initial
    {
      temperature, airHumidity, soilHumidity := None, None, None;
      airStatus, groundStatus := "unknown", "unknown";
      lastUpdated, daemonStatus := None, Starting;
      lastServoAction, lastServoTime := None, None;
    }

    /** `parse_sensor_line(line, sensor_data)`; `raised` is the `ValueError` of `float()`
        or `int()`, thrown before anything is assigned. */
    method ParseSensorLine(line: string, now: Stamp) returns (raised: bool)
      modifies this
      ensures raised == ParseLine(line).Unparsable?
      ensures View() == Apply(old(View()), ParseLine(line), now)
    {
      raised := false;
      var u := ParseLine(line);
      match u {
        case SetTemperature(t) => temperature := Some(t);
        case SetAirHumidity(h) => airHumidity := Some(h);
        case SetSoilHumidity(v) => soilHumidity := Some(v);
        case SetServo(a) => lastServoAction, lastServoTime := Some(a), Some(now);
        case Ignored =>
        case Unparsable(_) => raised := true;
      }
    }

    /** `determine_statuses(sensor_data)`; `raised` is the `TypeError` of a comparison
        against `None`, thrown after whatever labels were already written. */
    method DetermineStatuses() returns (raised: bool)
      modifies this
      ensures raised == Classify(old(View())).raised
      ensures View() == Classify(old(View())).after
    {
      var air := ClassifyAir(Held(temperature), Held(airHumidity));
      if air.None? {
        return true;
      }
      airStatus := air.value.Name();
      var ground := ClassifyGround(HeldInt(soilHumidity));
      if ground.None? {
        return true;
      }
      groundStatus := ground.value.Name();
      raised := false;
    }

    /** `save_sensor_data`: the stamp is stored in the dictionary first, whether or not
        the file write that follows succeeds (`writeOk`). */
    method Save(dir: DataDir, now: Stamp, writeOk: bool)
      modifies this`lastUpdated, dir`mirror
      ensures View() == old(View()).(lastUpdated := Some(now))
      ensures dir.mirror == Saved(old(dir.mirror), View(), writeOk)
    {
      lastUpdated := Some(now);
      if writeOk {
        dir.mirror := Holds(ToDoc(View()));
      }
    }
  }

  /** The sensor file after `save_sensor_data(d)`: the document of `d` when the write
      succeeds (`writeOk`); a failed write is logged and leaves the file as it was. */
  function Saved(mirror: MirrorFile, d: Snapshot, writeOk: bool): (m: MirrorFile)
    ensures writeOk ==> m.Holds? && Lookup(m.doc, "daemon_status") == VStr(d.daemonStatus.Name())
    ensures !writeOk ==> m == mirror
  {
    if writeOk then Holds(ToDoc(d)) else mirror
  }

  // ---------------------------------------------------------------------------
  // The command relay

  /** Which step of `check_and_send_command` raises: reading the file, the serial
      write, the flush, or deleting the file. */
  datatype RelayFaults = RelayFaults(readFails: bool, writeFails: bool, flushFails: bool, unlinkFails: bool)

  const NoFaults := RelayFaults(false, false, false, false)

  /** The return value, the command file afterwards, the chunks written to the link,
      and whether a flush pushed them out. */
  datatype RelayOutcome = RelayOutcome(sent: bool, remaining: Option<string>, written: seq<string>, flushed: bool)

  /** `check_and_send_command` on the command file's contents (`None` = no file). */
  function Relay(file: Option<string>, f: RelayFaults): (o: RelayOutcome)
    ensures o.sent <==>
      file.Some? && !f.readFails && !f.unlinkFails
      && (Strip(file.value) != "" ==> !f.writeFails && !f.flushFails)
    ensures o.sent ==> o.remaining.None?
    ensures !o.sent ==> o.remaining == file
    ensures o.written == [] || (file.Some? && Strip(file.value) != "" && o.written == [Strip(file.value) + "\n"])
    ensures o.flushed ==> o.written != []
    ensures o.sent ==> (o.written != [] <==> Strip(file.value) != "")
    ensures o.sent ==> o.flushed == (o.written != [])
  {
    match file
    case None => RelayOutcome(false, None, [], false)
    case Some(text) =>
      if f.readFails then RelayOutcome(false, file, [], false)
      else
        var command := Strip(text);
        if command == "" then
          if f.unlinkFails then RelayOutcome(false, file, [], false)
          else RelayOutcome(true, None, [], false)
        else if f.writeFails then RelayOutcome(false, file, [], false)
        else if f.flushFails then RelayOutcome(false, file, [command + "\n"], false)
        else if f.unlinkFails then RelayOutcome(false, file, [command + "\n"], true)
        else RelayOutcome(true, None, [command + "\n"], true)
  }

  /** `check_and_send_command(ser)` on the data directory and the open link. */
  method CheckAndSendCommand(dir: DataDir, link: Port, f: RelayFaults) returns (sent: bool)
    modifies dir`command, link`output, link`flushed
    ensures sent == Relay(old(dir.command), f).sent
    ensures dir.command == Relay(old(dir.command), f).remaining
    ensures link.output == old(link.output) + Relay(old(dir.command), f).written
    ensures link.flushed == if Relay(old(dir.command), f).flushed then |link.output| else old(link.flushed)
  {
    if dir.command.None? {
      return false;
    }
    if f.readFails {
      return false;
    }
    var command := Strip(dir.command.value);
    if command != "" {
      if f.writeFails {
        return false;
      }
      link.output := link.output + [command + "\n"];
      if f.flushFails {
        return false;
      }
      link.flushed := |link.output|;
    }
    if f.unlinkFails {
      return false;
    }
    dir.command := None;
    sent := true;
  }

  /** A command whose unlink fails has already gone out on the link, and the file stays,
      so the next fault-free tick sends it again: the device receives it twice. */
  lemma RelayResendsAfterFailedUnlink(text: string)
    requires Strip(text) != ""
    ensures var first := Relay(Some(text), RelayFaults(false, false, false, true));
      && !first.sent && first.written == [Strip(text) + "\n"]
      && Relay(first.remaining, NoFaults).sent
      && Relay(first.remaining, NoFaults).written == first.written
  {
  }

  // ---------------------------------------------------------------------------
  // One received line

  /** The dictionary after one received line, and whether it was saved. */
  datatype LineOutcome = LineOutcome(after: Snapshot, saved: bool)

  /** The body of the inner `try` (api/src/arduino_daemon.py:188-196): a non-blank line is
      parsed, classified and saved; a raise in parsing or classifying skips the save,
      but what was already assigned in place stays. */
  function HandleLine(s: Snapshot, line: string, now: Stamp): (o: LineOutcome)
    ensures o.saved <==>
      Strip(line) != "" && !ParseLine(line).Unparsable? && !Classify(Apply(s, ParseLine(line), now)).raised
    ensures o.saved ==> o.after == Classify(Apply(s, ParseLine(line), now)).after.(lastUpdated := Some(now))
    ensures !o.saved ==> o.after.lastUpdated == s.lastUpdated
    ensures o.after.daemonStatus == s.daemonStatus
    ensures Strip(line) == "" || ParseLine(line).Unparsable? ==> o.after == s
    ensures Strip(line) != "" && !ParseLine(line).Unparsable? && !o.saved ==>
      o.after == Classify(Apply(s, ParseLine(line), now)).after
  {
    if Strip(line) == "" then LineOutcome(s, false)
    else
      var u := ParseLine(line);
      if u.Unparsable? then LineOutcome(s, false)
      else
        var c := Classify(Apply(s, u, now));
        if c.raised then LineOutcome(c.after, false)
        else LineOutcome(c.after.(lastUpdated := Some(now)), true)
  }

  /** Every line keeps the dictionary settled: once all three readings exist, the labels
      are their band names. */
  lemma HandleLineSettles(s: Snapshot, line: string, now: Stamp)
    requires Settled(s)
    ensures Settled(HandleLine(s, line, now).after)
  {
    if Strip(line) != "" && !ParseLine(line).Unparsable? {
      var a := Apply(s, ParseLine(line), now);
      if AllReadings(a) {
        ClassifyComplete(a);
      }
    }
  }

  /** A saved document carries the band names of the readings it holds. */
  lemma SavedLabels(s: Snapshot, line: string, now: Stamp)
    requires HandleLine(s, line, now).saved
    ensures var a := HandleLine(s, line, now).after;
      && a.temperature.Some? && a.soilHumidity.Some?
      && a.groundStatus == GroundBand(a.soilHumidity.value as real).Name()
      && (a.airHumidity.Some? ==> a.airStatus == AirBand(a.temperature.value, a.airHumidity.value).Name())
      && (a.airHumidity.None? ==> a.airStatus == AirBad.Name())
  {
    ClassifyWritesBands(Apply(s, ParseLine(line), now));
  }

  /** The device's first three lines after start-up: the temperature and humidity lines
      are parsed but not saved (classification raises on a missing reading, after the
      humidity line has written the air label), and the soil line completes the
      readings, labels both optimal and saves. */
  lemma FirstReadings(n1: Stamp, n2: Stamp, n3: Stamp)
    ensures var o1 := HandleLine(Initial, "Temp: 21.20 C", n1);
      var o2 := HandleLine(o1.after, "Humi: 45.00 %", n2);
      var o3 := HandleLine(o2.after, "Soil: 73 %", n3);
      && !o1.saved && !o2.saved && o3.saved
      && o3.after.temperature == Some(21.2) && o3.after.airHumidity == Some(45.0)
      && o3.after.soilHumidity == Some(73)
      && o3.after.airStatus == "optimal" && o3.after.groundStatus == "optimal"
      && o3.after.lastUpdated == Some(n3)
  {
    TemperatureText();
    SpaceIsStripped("Temp: 21.20 C");
    var o1 := HandleLine(Initial, "Temp: 21.20 C", n1);
    FirstTemperature("Temp: 21.20 C", n1);
    HumidityText();
    SpaceIsStripped("Humi: 45.00 %");
    var o2 := HandleLine(o1.after, "Humi: 45.00 %", n2);
    FirstHumidity(o1.after, "Humi: 45.00 %", n2);
    SoilText();
    SpaceIsStripped("Soil: 73 %");
    SoilCompletes(o2.after, "Soil: 73 %", n3);
  }

  lemma FirstTemperature(line: string, now: Stamp)
    requires Strip(line) != "" && ParseLine(line) == SetTemperature(21.2)
    ensures var o := HandleLine(Initial, line, now);
      !o.saved && o.after == Initial.(temperature := Some(21.2))
  {
  }

  lemma TemperatureText()
    ensures ParseLine("Temp: 21.20 C") == SetTemperature(21.2)
  {
    assert "Temp: 21.20 C" == "Temp: " + "21" + "." + "20" + " C";
    TemperatureReading("21", "20");
    TwentyOnePointTwenty();
  }

  lemma TwentyOnePointTwenty()
    ensures PointValue("21", "20") == 21.2
  {
    assert "21"[..1] == "2" && "20"[..1] == "2" && "2"[..0] == [];
    assert DigitsValue("21") == 21 && DigitsValue("20") == 20 && Pow10(2) == 100;
  }

  lemma FirstHumidity(s: Snapshot, line: string, now: Stamp)
    requires s == Initial.(temperature := Some(21.2))
    requires Strip(line) != "" && ParseLine(line) == SetAirHumidity(45.0)
    ensures var o := HandleLine(s, line, now);
      !o.saved && o.after == s.(airHumidity := Some(45.0), airStatus := "optimal")
  {
  }

  lemma HumidityText()
    ensures ParseLine("Humi: 45.00 %") == SetAirHumidity(45.0)
  {
    assert "Humi: 45.00 %" == "Humi: " + "45" + "." + "00" + " %";
    HumidityReading("45", "00");
    FortyFivePointZero();
  }

  lemma FortyFivePointZero()
    ensures PointValue("45", "00") == 45.0
  {
    assert "45"[..1] == "4" && "00"[..1] == "0" && "4"[..0] == [] && "0"[..0] == [];
    assert DigitsValue("45") == 45 && DigitsValue("00") == 0;
  }

  lemma SoilCompletes(s: Snapshot, line: string, now: Stamp)
    requires s == Initial.(temperature := Some(21.2), airHumidity := Some(45.0), airStatus := "optimal")
    requires Strip(line) != "" && ParseLine(line) == SetSoilHumidity(73)
    ensures var o := HandleLine(s, line, now);
      o.saved && o.after == s.(soilHumidity := Some(73), groundStatus := "optimal", lastUpdated := Some(now))
  {
  }

  lemma SoilText()
    ensures ParseLine("Soil: 73 %") == SetSoilHumidity(73)
  {
    assert "Soil: 73 %" == "Soil: " + "73" + " %";
    SoilReading("73");
    assert "73"[..1] == "7" && "7"[..0] == [];
    assert DigitsValue("73") == 73;
  }

  /** A line that starts with a letter is not blank. */
  lemma SpaceIsStripped(line: string)
    requires |line| > 0 && 'A' <= line[0] <= 'Z'
    ensures Strip(line) != ""
  {
    StripSplits(line);
  }

  // ---------------------------------------------------------------------------
  // The status state machine of run_daemon

  /** The exception classes `run_daemon` tells apart (api/src/arduino_daemon.py:201-218). */
  datatype Fault = SerialFault | Interrupt | OtherFault

  /** The `daemon_status` each handler stores. */
  function FaultStatus(f: Fault): (st: DaemonStatus)
    ensures st == Stopped <==> f == Interrupt
    ensures st != Connected && st != Starting
  {
    match f
    case SerialFault => Disconnected
    case Interrupt => Stopped
    case OtherFault => Error
  }

  /** What `ser.in_waiting` and `ser.readline()` gave in one pass of the inner loop:
      nothing waiting, a decoded line, or a read that raised inside the inner `try`. */
  datatype Poll = Idle | Received(line: string) | ReadRaised

  /** One event of the loop: the port opens, one pass of the inner loop runs, or an
      exception reaches the outer handlers (while opening, or out of the inner loop). */
  datatype Step = Open | Tick(relay: RelayFaults, poll: Poll) | Raise(fault: Fault)

  /** An event with the clock reading it sees and whether its file writes succeed. */
  datatype Input = Input(step: Step, now: Stamp, writeOk: bool)

  /** The status after one event. A stopped daemon has left its loop; a tick outside a
      connection and an open inside one do not occur and change nothing. */
  function NextStatus(st: DaemonStatus, step: Step): (r: DaemonStatus)
    ensures st == Stopped ==> r == Stopped
    ensures st != Stopped && step.Raise? ==> r == FaultStatus(step.fault)
    ensures st != Stopped && step.Open? ==> r == Connected
    ensures step.Tick? ==> r == st
    ensures r == Stopped <==> st == Stopped || step == Raise(Interrupt)
  {
    if st == Stopped then Stopped
    else
      match step
      case Open => Connected
      case Tick(_, _) => st
      case Raise(f) => FaultStatus(f)
  }

  /** The status after a sequence of events; once stopped, it stays stopped. */
  function StatusAfter(st: DaemonStatus, inputs: seq<Input>): (r: DaemonStatus)
    ensures st == Stopped ==> r == Stopped
  {
    if inputs == [] then st
    else NextStatus(StatusAfter(st, inputs[..|inputs| - 1]), inputs[|inputs| - 1].step)
  }

  /** The daemon ends up stopped exactly when an interrupt reached it, and it never
      leaves that state. */
  lemma {:induction false} StoppedIffInterrupted(st: DaemonStatus, inputs: seq<Input>)
    ensures StatusAfter(st, inputs) == Stopped <==>
      st == Stopped || exists i :: 0 <= i < |inputs| && inputs[i].step == Raise(Interrupt)
  {
    if inputs != [] {
      var init := inputs[..|inputs| - 1];
      StoppedIffInterrupted(st, init);
      if exists i :: 0 <= i < |init| && init[i].step == Raise(Interrupt) {
        var i :| 0 <= i < |init| && init[i].step == Raise(Interrupt);
        assert inputs[i] == init[i];
      }
      if exists i :: 0 <= i < |inputs| && inputs[i].step == Raise(Interrupt) {
        var i :| 0 <= i < |inputs| && inputs[i].step == Raise(Interrupt);
        if i < |init| {
          assert init[i] == inputs[i];
        }
      }
    }
  }

  // ---------------------------------------------------------------------------
  // The loop's whole state

  /** Everything an event of `run_daemon` can change: the dictionary, the sensor file,
      the command file, the chunks written to the port and how many a flush pushed out,
      whether the port is open, and whether the outer loop still runs. */
  datatype World = World(
    data: Snapshot, mirror: MirrorFile, command: Option<string>,
    output: seq<string>, flushed: nat, isOpen: bool, running: bool)

  /** The loop ends exactly when the status is stopped, the port is open exactly while
      connected, and the dictionary is settled. */
  predicate Consistent(w: World) {
    && (w.running <==> w.data.daemonStatus != Stopped)
    && (w.isOpen <==> w.data.daemonStatus == Connected)
    && Settled(w.data)
  }

  /** One event: an opened port is stamped connected and saved; a tick relays the
      pending command and then handles the line that was waiting; an exception closes
      the port, stores its handler's status and saves, and an interrupt ends the loop.
      A stopped loop, an open of an open port and a tick without one change nothing. */
  function Next(w: World, input: Input): (r: World)
    ensures !w.running ==> r == w
    ensures r.running <==> w.running && input.step != Raise(Interrupt)
    ensures w.running && w.data.daemonStatus != Stopped ==>
      r.data.daemonStatus == NextStatus(w.data.daemonStatus, input.step)
    ensures w.running && input.step.Raise? ==>
      !r.isOpen && r.data.lastUpdated == Some(input.now) && r.mirror == Saved(w.mirror, r.data, input.writeOk)
    ensures !input.step.Tick? ==> r.command == w.command && r.output == w.output
  {
    if !w.running then w
    else
      match input.step
      case Open =>
        if w.data.daemonStatus == Connected then w
        else
          var d := w.data.(daemonStatus := Connected, lastUpdated := Some(input.now));
          w.(data := d, mirror := Saved(w.mirror, d, input.writeOk), isOpen := true)
      case Tick(relay, poll) =>
        if w.data.daemonStatus != Connected then w
        else
          var r := Relay(w.command, relay);
          var out := w.output + r.written;
          var relayed := w.(command := r.remaining, output := out,
                            flushed := if r.flushed then |out| else w.flushed);
          if poll.Received? then
            var o := HandleLine(w.data, poll.line, input.now);
            relayed.(data := o.after,
                     mirror := if o.saved then Saved(w.mirror, o.after, input.writeOk) else w.mirror)
          else relayed
      case Raise(f) =>
        var d := w.data.(daemonStatus := FaultStatus(f), lastUpdated := Some(input.now));
        w.(data := d, mirror := Saved(w.mirror, d, input.writeOk), isOpen := false,
           running := f != Interrupt)
  }

  /** The state after a script of events. Events after the loop has ended change nothing. */
  function RunFrom(w: World, script: seq<Input>): (r: World)
    ensures !w.running ==> r == w
    ensures r.running ==> w.running
  {
    if script == [] then w
    else Next(RunFrom(w, script[..|script| - 1]), script[|script| - 1])
  }

  /** Every event keeps the state consistent and moves the status as `NextStatus` says. */
  lemma NextConsistent(w: World, input: Input)
    requires Consistent(w)
    ensures Consistent(Next(w, input))
    ensures Next(w, input).data.daemonStatus == NextStatus(w.data.daemonStatus, input.step)
  {
    if w.running && input.step.Tick? && w.data.daemonStatus == Connected && input.step.poll.Received? {
      HandleLineSettles(w.data, input.step.poll.line, input.now);
    }
  }

  /** A script keeps the state consistent and ends in the status `StatusAfter` gives. */
  lemma {:induction false} RunConsistent(w: World, script: seq<Input>)
    requires Consistent(w)
    ensures Consistent(RunFrom(w, script))
    ensures RunFrom(w, script).data.daemonStatus == StatusAfter(w.data.daemonStatus, script)
  {
    if script != [] {
      RunConsistent(w, script[..|script| - 1]);
      NextConsistent(RunFrom(w, script[..|script| - 1]), script[|script| - 1]);
    }
  }

  /** Once the loop has ended, the rest of the script changes nothing. */
  lemma {:induction false} HaltedStays(w: World, script: seq<Input>, k: nat)
    requires k <= |script| && !RunFrom(w, script[..k]).running
    ensures RunFrom(w, script) == RunFrom(w, script[..k])
    decreases |script| - k
  {
    if k < |script| {
      assert script[..k + 1][..k] == script[..k];
      HaltedStays(w, script, k + 1);
    } else {
      assert script[..k] == script;
    }
  }

  /** Without an interrupt, the loop keeps running. */
  lemma {:induction false} RunningUntilInterrupt(w: World, script: seq<Input>)
    requires w.running
    requires forall i :: 0 <= i < |script| ==> script[i].step != Raise(Interrupt)
    ensures RunFrom(w, script).running
  {
    if script != [] {
      RunningUntilInterrupt(w, script[..|script| - 1]);
    }
  }

  /** The first interrupt ends the loop with the port closed and the status "stopped",
      and, when its save succeeds, the sensor file holds that final dictionary. */
  lemma InterruptLeavesStopped(w: World, script: seq<Input>, i: nat)
    requires w.running && i < |script|
    requires script[i].step == Raise(Interrupt) && script[i].writeOk
    requires forall j :: 0 <= j < i ==> script[j].step != Raise(Interrupt)
    ensures var e := RunFrom(w, script);
      && !e.running && !e.isOpen && e.data.daemonStatus == Stopped
      && e.mirror == Holds(ToDoc(e.data))
  {
    RunningUntilInterrupt(w, script[..i]);
    assert script[..i + 1][..i] == script[..i];
    HaltedStays(w, script, i + 1);
  }

  /** The sensor file holds the loop's current `daemon_status`. */
  predicate StatusSaved(w: World) {
    w.mirror.Holds? && Lookup(w.mirror.doc, "daemon_status") == VStr(w.data.daemonStatus.Name())
  }

  /** While every save succeeds, the sensor file keeps up with the status: an event that
      changes the status saves it, and the others keep it. */
  lemma NextKeepsStatusSaved(w: World, input: Input)
    requires StatusSaved(w) && input.writeOk
    ensures StatusSaved(Next(w, input))
  {
    if w.running && input.step.Tick? && w.data.daemonStatus == Connected && input.step.poll.Received? {
      var o := HandleLine(w.data, input.step.poll.line, input.now);
      assert o.after.daemonStatus == w.data.daemonStatus;
    }
  }

  /** The status is saved from the first open or fault on, while every save succeeds. */
  lemma {:induction false} RunKeepsStatusSaved(w: World, script: seq<Input>)
    requires StatusSaved(w)
    requires forall i :: 0 <= i < |script| ==> script[i].writeOk
    ensures StatusSaved(RunFrom(w, script))
  {
    if script != [] {
      RunKeepsStatusSaved(w, script[..|script| - 1]);
      NextKeepsStatusSaved(RunFrom(w, script[..|script| - 1]), script[|script| - 1]);
    }
  }

  /** The first save of the loop, on opening the port or on a fault, stores the status. */
  lemma FirstSaveStoresStatus(w: World, input: Input)
    requires w.running && input.writeOk
    requires input.step.Raise? || (input.step.Open? && w.data.daemonStatus != Connected)
    ensures StatusSaved(Next(w, input))
  {
  }

  /** The daemon process: its dictionary, the data directory, its serial port, and
      whether `run_daemon`'s outer loop is still running. */
  class Daemon {
    const data: SensorData
    const dir: DataDir
    const link: Port
    var running: bool

    /** The process's state as a value. */
    function State(): World
      reads this, data, dir, link
    {
      World(data.View(), dir.mirror, dir.command, link.output, link.flushed, link.isOpen, running)
    }

    ghost predicate Valid()
      reads this, data, dir, link
    {
      Consistent(State())
    }

    /** `run_daemon` up to its loop: the initial dictionary and no open port. */
    constructor (dir: DataDir)
      ensures Valid() && running
      ensures data.View() == Initial && this.dir == dir
      ensures fresh(data) && fresh(link)
    {
      data := new SensorData();
      this.dir := dir;
      link := new Port.Closed();
      running := true;
    }

    /** The port opens: the status becomes connected and is saved. */
    method Connect(now: Stamp, writeOk: bool)
      requires Valid() && running && data.daemonStatus != Connected
      modifies link`isOpen, data, dir`mirror
      ensures Valid() && running
      ensures data.View() == old(data.View()).(daemonStatus := Connected, lastUpdated := Some(now))
      ensures dir.mirror == Saved(old(dir.mirror), data.View(), writeOk)
    {
      link.isOpen := true;
      data.daemonStatus := Connected;
      data.Save(dir, now, writeOk);
    }

    /** An exception reaches the outer handlers: leaving the `with` block closes the
        port, the handler stores its status and saves, and an interrupt ends the loop. */
    method Handle(fault: Fault, now: Stamp, writeOk: bool)
      requires Valid() && running
      modifies this`running, link`isOpen, data, dir`mirror
      ensures Valid() && !link.isOpen
      ensures running <==> fault != Interrupt
      ensures data.View() == old(data.View()).(daemonStatus := FaultStatus(fault), lastUpdated := Some(now))
      ensures dir.mirror == Saved(old(dir.mirror), data.View(), writeOk)
    {
      link.isOpen := false;
      data.daemonStatus := FaultStatus(fault);
      data.Save(dir, now, writeOk);
      running := fault != Interrupt;
    }

    /** A line read from the port: parsed, classified and saved unless blank or raising. */
    method ReceiveLine(line: string, now: Stamp, writeOk: bool)
      requires Valid()
      modifies data, dir`mirror
      ensures Valid()
      ensures data.View() == HandleLine(old(data.View()), line, now).after
      ensures dir.mirror ==
        if HandleLine(old(data.View()), line, now).saved then Saved(old(dir.mirror), data.View(), writeOk)
        else old(dir.mirror)
    {
      HandleLineSettles(data.View(), line, now);
      if Strip(line) != "" {
        var raised := data.ParseSensorLine(line, now);
        if !raised {
          raised := data.DetermineStatuses();
          if !raised {
            data.Save(dir, now, writeOk);
          }
        }
      }
    }

    /** One pass of the inner loop: relay a pending command, then handle what the port
        had waiting. Nothing here changes the status. */
    method TickOnce(relay: RelayFaults, poll: Poll, now: Stamp, writeOk: bool)
      requires Valid() && data.daemonStatus == Connected
      modifies data, dir`command, dir`mirror, link`output, link`flushed
      ensures Valid() && data.daemonStatus == Connected
      ensures dir.command == Relay(old(dir.command), relay).remaining
      ensures link.output == old(link.output) + Relay(old(dir.command), relay).written
      ensures link.flushed == if Relay(old(dir.command), relay).flushed then |link.output| else old(link.flushed)
      ensures poll.Received? ==> data.View() == HandleLine(old(data.View()), poll.line, now).after
      ensures poll.Received? ==>
        dir.mirror == (if HandleLine(old(data.View()), poll.line, now).saved
                       then Saved(old(dir.mirror), data.View(), writeOk) else old(dir.mirror))
      ensures !poll.Received? ==> data.View() == old(data.View()) && dir.mirror == old(dir.mirror)
    {
      var _ := CheckAndSendCommand(dir, link, relay);
      if poll.Received? {
        ReceiveLine(poll.line, now, writeOk);
      }
    }

    /** One event of the loop, on a running daemon. */
    method Step(input: Input)
      requires Valid() && running
      modifies this`running, data, dir`command, dir`mirror, link
      ensures Valid()
      ensures State() == Next(old(State()), input)
      ensures data.daemonStatus == NextStatus(old(data.daemonStatus), input.step)
    {
      match input.step {
        case Open =>
          if data.daemonStatus != Connected {
            Connect(input.now, input.writeOk);
          }
        case Tick(relay, poll) =>
          if data.daemonStatus == Connected {
            TickOnce(relay, poll, input.now, input.writeOk);
          }
        case Raise(fault) =>
          Handle(fault, input.now, input.writeOk);
      }
    }

    /** `run_daemon` over a script of events; it stops at the first interrupt. */
    method Run(script: seq<Input>)
      requires Valid()
      modifies this`running, data, dir`command, dir`mirror, link
      ensures Valid()
      ensures State() == RunFrom(old(State()), script)
      ensures data.daemonStatus == StatusAfter(old(data.daemonStatus), script)
    {
      var i := 0;
      while i < |script| && running
        invariant 0 <= i <= |script|
        invariant Valid()
        invariant State() == RunFrom(old(State()), script[..i])
        decreases |script| - i
      {
        Step(script[i]);
        assert script[..i + 1][..i] == script[..i];
        i := i + 1;
      }
      if i < |script| {
        HaltedStays(old(State()), script, i);
      } else {
        assert script[..i] == script;
      }
      RunConsistent(old(State()), script);
    }
  }

  /** A script that is stopped after its first `k` events is stopped at its end. */
  lemma {:induction false} StoppedAfter(st: DaemonStatus, script: seq<Input>, k: nat)
    requires k <= |script| && StatusAfter(st, script[..k]) == Stopped
    ensures StatusAfter(st, script) == Stopped
    decreases |script| - k
  {
    if k < |script| {
      assert script[..k + 1][..k] == script[..k];
      StoppedAfter(st, script, k + 1);
    } else {
      assert script[..k] == script;
    }
  }
}
