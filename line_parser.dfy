/** `parse_sensor_line` (api/src/arduino_daemon.py:48-84): one line from the device
    becomes at most one change to the sensor dictionary. The four patterns are
    tried in order on the stripped line, Temp, Humi, Soil, then the `Servo:` prefix;
    `re.match` anchors only at the start, so text after the unit is allowed. */
module LineParser {
  import opened Wrappers
  import opened Text
  import opened Io
  import opened Sensors

  /** What one line does to the dictionary. `Unparsable(g)` is a line whose
      pattern matched but whose captured number `float()` or `int()` rejects: the
      call raises before it assigns anything. */
  datatype LineUpdate =
    | SetTemperature(t: real)
    | SetAirHumidity(h: real)
    | SetSoilHumidity(soil: int)
    | SetServo(action: string)
    | Ignored
    | Unparsable(group: string)

  /** The regular expression `prefix\s*(cls+)\s*unit` matches at the start of `l`,
      with the prefix ending at `|prefix|`, the group spanning `[j, k)` and the unit at `m`. */
  ghost predicate Shape(l: string, prefix: string, cls: CharClass, unit: char, j: nat, k: nat, m: nat) {
    && |prefix| <= j < k <= m < |l|
    && l[..|prefix|] == prefix
    && (forall i :: |prefix| <= i < j ==> IsSpace(l[i]))
    && (forall i :: j <= i < k ==> cls.Has(l[i]))
    && (forall i :: k <= i < m ==> IsSpace(l[i]))
    && l[m] == unit
  }

  /** The group `re.match(prefix + r"\s*(cls+)\s*" + unit, l)` captures, if it matches.
      Every quantifier is greedy and the three classes are disjoint, so no
      backtracking is ever needed. */
  function Capture(l: string, prefix: string, cls: CharClass, unit: char): (r: Option<string>)
    ensures r.Some? ==> |r.value| > 0 && All(r.value, cls)
  {
    if !StartsWith(l, prefix) then None
    else
      var j := SpanEnd(l, |prefix|, Space);
      var k := SpanEnd(l, j, cls);
      var m := SpanEnd(l, k, Space);
      if j < k && m < |l| && l[m] == unit then Some(l[j..k]) else None
  }

  /** Whatever the capture returns, the line has the regular expression's shape around it. */
  lemma CaptureSound(l: string, prefix: string, cls: CharClass, unit: char)
    requires Capture(l, prefix, cls, unit).Some?
    ensures exists j: nat, k: nat, m: nat :: Shape(l, prefix, cls, unit, j, k, m) && Capture(l, prefix, cls, unit).value == l[j..k]
  {
    var j := SpanEnd(l, |prefix|, Space);
    var k := SpanEnd(l, j, cls);
    var m := SpanEnd(l, k, Space);
    assert Shape(l, prefix, cls, unit, j, k, m);
  }

  /** Wherever the line has the shape, the capture finds exactly that group, for
      a group class and a unit character that are neither whitespace nor in the class. */
  lemma CaptureComplete(l: string, prefix: string, cls: CharClass, unit: char, j: nat, k: nat, m: nat)
    requires cls != Space && !IsSpace(unit) && !cls.Has(unit)
    requires Shape(l, prefix, cls, unit, j, k, m)
    ensures Capture(l, prefix, cls, unit) == Some(l[j..k])
  {
    assert !IsSpace(l[j]);
    SpanEndAt(l, |prefix|, j, Space);
    assert !cls.Has(l[k]);
    SpanEndAt(l, j, k, cls);
    SpanEndAt(l, k, m, Space);
  }

  /** The line has no shape for this pattern exactly when the capture fails. */
  lemma CaptureFailsIffNoShape(l: string, prefix: string, cls: CharClass, unit: char)
    requires cls != Space && !IsSpace(unit) && !cls.Has(unit)
    ensures Capture(l, prefix, cls, unit).None? <==> forall j: nat, k: nat, m: nat :: !Shape(l, prefix, cls, unit, j, k, m)
  {
    if Capture(l, prefix, cls, unit).Some? {
      CaptureSound(l, prefix, cls, unit);
    } else {
      forall j: nat, k: nat, m: nat ensures !Shape(l, prefix, cls, unit, j, k, m) {
        if Shape(l, prefix, cls, unit, j, k, m) {
          CaptureComplete(l, prefix, cls, unit, j, k, m);
        }
      }
    }
  }

  /** The most digits `int()` converts from a decimal string: Python's default
      integer string conversion limit (`sys.get_int_max_str_digits()`). A longer
      string makes `int()` raise `ValueError`. */
  const IntMaxStrDigits := 4300

  /** A captured `[\d.]+` group becomes a temperature or humidity, or makes `float()` raise. */
  function NumberUpdate(g: string, isTemperature: bool): LineUpdate
    requires All(g, DigitOrDot)
  {
    match DecimalValue(g)
    case Some(x) => if isTemperature then SetTemperature(x) else SetAirHumidity(x)
    case None => Unparsable(g)
  }

  /** `parse_sensor_line`'s decision for one raw line: a blank line is ignored, a soil
      reading is never negative, a servo line is kept whole, and only a captured
      number can fail to parse. */
  function ParseLine(line: string): (u: LineUpdate)
    ensures Strip(line) == "" ==> u == Ignored
    ensures u.SetSoilHumidity? ==> u.soil >= 0
    ensures u.SetServo? ==> StartsWith(Strip(line), "Servo:") && u.action == Strip(line)
    ensures u.Unparsable? ==> |u.group| > 0 && All(u.group, DigitOrDot)
  {
    var l := Strip(line);
    match Capture(l, "Temp:", DigitOrDot, 'C')
    case Some(g) => NumberUpdate(g, true)
    case None =>
      match Capture(l, "Humi:", DigitOrDot, '%')
      case Some(g) => NumberUpdate(g, false)
      case None =>
        match Capture(l, "Soil:", Digit, '%')
        case Some(g) =>
          if |g| > IntMaxStrDigits then Unparsable(g) else SetSoilHumidity(DigitsValue(g))
        case None => if StartsWith(l, "Servo:") then SetServo(l) else Ignored
  }

  /** Applies one update to the dictionary; `now` is the clock reading a `Servo:` line stores.
      Each update touches only its own field group, and a line that matches nothing,
      or whose number does not parse, changes nothing. */
  function Apply(s: Snapshot, u: LineUpdate, now: Stamp): (r: Snapshot)
    ensures u.SetTemperature? ==> r.temperature == Some(u.t)
    ensures u.SetAirHumidity? ==> r.airHumidity == Some(u.h)
    ensures u.SetSoilHumidity? ==> r.soilHumidity == Some(u.soil)
    ensures u.SetServo? ==> r.lastServoAction == Some(u.action) && r.lastServoTime == Some(now)
    ensures !u.SetTemperature? ==> r.temperature == s.temperature
    ensures !u.SetAirHumidity? ==> r.airHumidity == s.airHumidity
    ensures !u.SetSoilHumidity? ==> r.soilHumidity == s.soilHumidity
    ensures !u.SetServo? ==> r.lastServoAction == s.lastServoAction && r.lastServoTime == s.lastServoTime
    ensures r.airStatus == s.airStatus && r.groundStatus == s.groundStatus
    ensures r.lastUpdated == s.lastUpdated && r.daemonStatus == s.daemonStatus
  {
    match u
    case SetTemperature(t) => s.(temperature := Some(t))
    case SetAirHumidity(h) => s.(airHumidity := Some(h))
    case SetSoilHumidity(v) => s.(soilHumidity := Some(v))
    case SetServo(a) => s.(lastServoAction := Some(a), lastServoTime := Some(now))
    case Ignored => s
    case Unparsable(_) => s
  }

  /** Which field group an update writes; `None` for an update that writes nothing. */
  function Group(u: LineUpdate): Option<nat> {
    match u
    case SetTemperature(_) => Some(0)
    case SetAirHumidity(_) => Some(1)
    case SetSoilHumidity(_) => Some(2)
    case SetServo(_) => Some(3)
    case _ => None
  }

  /** Updates to different field groups commute: the order two such lines arrive in
      does not change the dictionary. */
  lemma ApplyCommutes(s: Snapshot, u: LineUpdate, v: LineUpdate, now: Stamp)
    requires Group(u) != Group(v) || Group(u).None?
    ensures Apply(Apply(s, u, now), v, now) == Apply(Apply(s, v, now), u, now)
  {
  }

  // ---------------------------------------------------------------------------
  // What ParseLine does, stated against the regular expressions

  /** The line is stripped before any pattern is tried. */
  lemma ParseLineStrips(line: string)
    ensures ParseLine(Strip(line)) == ParseLine(line)
  {
    StripIdempotent(line);
  }

  /** The four prefixes exclude one another, so the order the patterns are tried in
      decides nothing: a line can match at most one of them. */
  lemma PrefixesExclusive(l: string)
    ensures StartsWith(l, "Temp:") ==> !StartsWith(l, "Humi:") && !StartsWith(l, "Soil:") && !StartsWith(l, "Servo:")
    ensures StartsWith(l, "Humi:") ==> !StartsWith(l, "Soil:") && !StartsWith(l, "Servo:")
    ensures StartsWith(l, "Soil:") ==> !StartsWith(l, "Servo:")
  {
    if StartsWith(l, "Temp:") {
      assert l[0] == 'T';
    }
    if StartsWith(l, "Humi:") {
      assert l[0] == 'H';
    }
    if StartsWith(l, "Soil:") {
      assert l[1] == 'o';
    }
  }

  lemma CaptureNeedsPrefix(l: string, prefix: string, cls: CharClass, unit: char)
    requires !StartsWith(l, prefix)
    ensures Capture(l, prefix, cls, unit).None?
  {
  }

  /** A stripped line of the form `Temp: <g> C...` sets the temperature to `float(g)`,
      or raises when `g` is not a number. */
  lemma TemperatureLine(line: string, j: nat, k: nat, m: nat)
    requires Shape(Strip(line), "Temp:", DigitOrDot, 'C', j, k, m)
    ensures All(Strip(line)[j..k], DigitOrDot)
    ensures ParseLine(line) == NumberUpdate(Strip(line)[j..k], true)
  {
    CaptureComplete(Strip(line), "Temp:", DigitOrDot, 'C', j, k, m);
  }

  /** A stripped line of the form `Humi: <g> %...` sets the air humidity to `float(g)`,
      or raises when `g` is not a number. */
  lemma HumidityLine(line: string, j: nat, k: nat, m: nat)
    requires Shape(Strip(line), "Humi:", DigitOrDot, '%', j, k, m)
    ensures All(Strip(line)[j..k], DigitOrDot)
    ensures ParseLine(line) == NumberUpdate(Strip(line)[j..k], false)
  {
    var l := Strip(line);
    PrefixesExclusive(l);
    CaptureNeedsPrefix(l, "Temp:", DigitOrDot, 'C');
    CaptureComplete(l, "Humi:", DigitOrDot, '%', j, k, m);
  }

  /** A stripped line of the form `Soil: <digits> %...` sets the soil humidity to
      `int(digits)`, or raises when there are more digits than `int()` converts. */
  lemma SoilLine(line: string, j: nat, k: nat, m: nat)
    requires Shape(Strip(line), "Soil:", Digit, '%', j, k, m)
    ensures All(Strip(line)[j..k], Digit)
    ensures k - j <= IntMaxStrDigits ==> ParseLine(line) == SetSoilHumidity(DigitsValue(Strip(line)[j..k]))
    ensures k - j > IntMaxStrDigits ==> ParseLine(line) == Unparsable(Strip(line)[j..k])
  {
    var l := Strip(line);
    PrefixesExclusive(l);
    CaptureNeedsPrefix(l, "Temp:", DigitOrDot, 'C');
    CaptureNeedsPrefix(l, "Humi:", DigitOrDot, '%');
    CaptureComplete(l, "Soil:", Digit, '%', j, k, m);
  }

  /** A stripped line starting with `Servo:` is stored whole as the servo action. */
  lemma ServoLine(line: string)
    requires StartsWith(Strip(line), "Servo:")
    ensures ParseLine(line) == SetServo(Strip(line))
  {
    var l := Strip(line);
    PrefixesExclusive(l);
    CaptureNeedsPrefix(l, "Temp:", DigitOrDot, 'C');
    CaptureNeedsPrefix(l, "Humi:", DigitOrDot, '%');
    CaptureNeedsPrefix(l, "Soil:", Digit, '%');
  }

  /** A line is ignored exactly when none of the three regular expressions matches
      it and it does not start with `Servo:`. */
  lemma IgnoredLine(line: string)
    ensures ParseLine(line).Ignored? <==>
      && (forall j: nat, k: nat, m: nat :: !Shape(Strip(line), "Temp:", DigitOrDot, 'C', j, k, m))
      && (forall j: nat, k: nat, m: nat :: !Shape(Strip(line), "Humi:", DigitOrDot, '%', j, k, m))
      && (forall j: nat, k: nat, m: nat :: !Shape(Strip(line), "Soil:", Digit, '%', j, k, m))
      && !StartsWith(Strip(line), "Servo:")
  {
    var l := Strip(line);
    IgnoredIffNoCapture(line);
    CaptureFailsIffNoShape(l, "Temp:", DigitOrDot, 'C');
    CaptureFailsIffNoShape(l, "Humi:", DigitOrDot, '%');
    CaptureFailsIffNoShape(l, "Soil:", Digit, '%');
  }

  lemma IgnoredIffNoCapture(line: string)
    ensures ParseLine(line).Ignored? <==>
      && Capture(Strip(line), "Temp:", DigitOrDot, 'C').None?
      && Capture(Strip(line), "Humi:", DigitOrDot, '%').None?
      && Capture(Strip(line), "Soil:", Digit, '%').None?
      && !StartsWith(Strip(line), "Servo:")
  {
  }

  /** A line raises only when `float()` gets a Temp or Humi group with no digit or with
      two dots (`Temp: . C`, `Humi: 1.2.3 %`), or `int()` gets a Soil group longer
      than its digit limit. */
  lemma UnparsableLine(line: string)
    requires ParseLine(line).Unparsable?
    ensures StartsWith(Strip(line), "Temp:") || StartsWith(Strip(line), "Humi:") || StartsWith(Strip(line), "Soil:")
    ensures !StartsWith(Strip(line), "Soil:") ==>
      !HasDigit(ParseLine(line).group) || TwoDots(ParseLine(line).group)
    ensures StartsWith(Strip(line), "Soil:") ==>
      All(ParseLine(line).group, Digit) && |ParseLine(line).group| > IntMaxStrDigits
  {
    var l := Strip(line);
    PrefixesExclusive(l);
    var t := Capture(l, "Temp:", DigitOrDot, 'C');
    if t.Some? {
      DecimalRejects(t.value);
    } else {
      var h := Capture(l, "Humi:", DigitOrDot, '%');
      if h.Some? {
        DecimalRejects(h.value);
      }
    }
  }

  /** The device prints `<prefix> <g> <unit>`: for any group of the pattern's class the
      capture gets `g` back. */
  lemma DeviceLineCaptures(prefix: string, g: string, cls: CharClass, unit: char)
    requires |g| > 0 && All(g, cls)
    requires cls != Space && !IsSpace(unit) && !cls.Has(unit)
    ensures Capture(prefix + " " + g + " " + [unit], prefix, cls, unit) == Some(g)
  {
    var l := prefix + " " + g + " " + [unit];
    var j := |prefix| + 1;
    var k := j + |g|;
    forall i | j <= i < k ensures cls.Has(l[i]) {
      assert l[i] == g[i - j];
    }
    assert l[..|prefix|] == prefix;
    assert l[k] == ' ' && l[k + 1] == unit;
    assert Shape(l, prefix, cls, unit, j, k, k + 1);
    CaptureComplete(l, prefix, cls, unit, j, k, k + 1);
    assert l[j..k] == g;
  }

  /** A device line `Temp: <a>.<b> C` reads back as the temperature `a.b`. */
  lemma TemperatureReading(a: string, b: string)
    requires All(a, Digit) && All(b, Digit) && |a| + |b| > 0
    ensures ParseLine("Temp: " + a + "." + b + " C") == SetTemperature(PointValue(a, b))
  {
    DecimalOfParts(a, b);
    DeviceLineParts("Temp:", a, b, 'C');
    TemperatureDevice("Temp: " + a + "." + b + " C", a + "." + b);
  }

  /** A device line `Humi: <a>.<b> %` reads back as the air humidity `a.b`. */
  lemma HumidityReading(a: string, b: string)
    requires All(a, Digit) && All(b, Digit) && |a| + |b| > 0
    ensures ParseLine("Humi: " + a + "." + b + " %") == SetAirHumidity(PointValue(a, b))
  {
    DecimalOfParts(a, b);
    DeviceLineParts("Humi:", a, b, '%');
    HumidityDevice("Humi: " + a + "." + b + " %", a + "." + b);
  }

  lemma DeviceLineParts(prefix: string, a: string, b: string, unit: char)
    ensures prefix + " " + a + "." + b + " " + [unit] == prefix + " " + (a + "." + b) + " " + [unit]
  {
  }

  /** The device's temperature line for a `[\d.]+` group parses that group. */
  lemma TemperatureDevice(line: string, g: string)
    requires |g| > 0 && All(g, DigitOrDot) && line == "Temp:" + " " + g + " " + ['C']
    ensures ParseLine(line) == NumberUpdate(g, true)
  {
    DeviceLineCaptures("Temp:", g, DigitOrDot, 'C');
    StripPadded([], line, []);
    assert [] + line + [] == line;
  }

  /** The device's humidity line for a `[\d.]+` group parses that group. */
  lemma HumidityDevice(line: string, g: string)
    requires |g| > 0 && All(g, DigitOrDot) && line == "Humi:" + " " + g + " " + ['%']
    ensures ParseLine(line) == NumberUpdate(g, false)
  {
    DeviceLineCaptures("Humi:", g, DigitOrDot, '%');
    StripPadded([], line, []);
    assert [] + line + [] == line;
    PrefixesExclusive(line);
    CaptureNeedsPrefix(line, "Temp:", DigitOrDot, 'C');
  }

  /** A device line `Soil: <digits> %` reads back as the soil humidity `int(digits)`,
      and raises once the digits are more than `int()` converts. */
  lemma SoilReading(d: string)
    requires All(d, Digit) && |d| > 0
    ensures |d| <= IntMaxStrDigits ==> ParseLine("Soil: " + d + " %") == SetSoilHumidity(DigitsValue(d))
    ensures |d| > IntMaxStrDigits ==> ParseLine("Soil: " + d + " %") == Unparsable(d)
  {
    var line := "Soil: " + d + " %";
    SoilShape(d);
    SoilLine(line, 6, 6 + |d|, 7 + |d|);
    assert line[6..6 + |d|] == d;
  }

  lemma SoilShape(d: string)
    requires All(d, Digit) && |d| > 0
    ensures Strip("Soil: " + d + " %") == "Soil: " + d + " %"
    ensures Shape("Soil: " + d + " %", "Soil:", Digit, '%', 6, 6 + |d|, 7 + |d|)
  {
    SoilStrip(d);
    var line := "Soil: " + d + " %";
    forall i | 6 <= i < 6 + |d| ensures Digit.Has(line[i]) {
      assert line[i] == d[i - 6];
    }
    assert line[5] == ' ' && line[6 + |d|] == ' ' && line[7 + |d|] == '%';
  }

  lemma SoilStrip(d: string)
    ensures Strip("Soil: " + d + " %") == "Soil: " + d + " %"
  {
    var line := "Soil: " + d + " %";
    assert line[0] == 'S' && line[|line| - 1] == '%';
    StripPadded([], line, []);
    assert [] + line + [] == line;
  }
}
