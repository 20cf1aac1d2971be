/** `ArduinoController` (api/arduino/arduino.py): a controller with one connection field
    that reconnects on demand, writes newline-terminated commands, and parses the
    device's comma-separated `KEY:value` reply. Whether a port opens, a write raises or
    what a read returns are inputs. */
module Controller {
  import opened Wrappers
  import opened Text
  import opened Io
  import opened Models

  /** The key of a reply piece: the stripped text before its first ':'. */
  function KeyOf(piece: string): string {
    Strip(Before(piece, ':'))
  }

  /** The value of a reply piece: the stripped text after its first ':'. */
  function ValueOf(piece: string): string
    requires ':' in piece
  {
    Strip(After(piece, ':'))
  }

  /** The dictionary the loop over `response.split(",")` builds: pieces without ':'
      are skipped, and a later piece with the same key overwrites an earlier one. */
  function FieldsOf(pieces: seq<string>): (fields: map<string, string>)
    ensures fields.Keys <= set i | 0 <= i < |pieces| && ':' in pieces[i] :: KeyOf(pieces[i])
  {
    if pieces == [] then map[]
    else
      var fields := FieldsOf(pieces[..|pieces| - 1]);
      var piece := pieces[|pieces| - 1];
      if ':' in piece then fields[KeyOf(piece) := ValueOf(piece)] else fields
  }

  /** One more piece updates the dictionary built from the pieces before it. */
  lemma FieldsOfStep(pieces: seq<string>, i: nat)
    requires i < |pieces|
    ensures FieldsOf(pieces[..i + 1]) ==
      if ':' in pieces[i] then FieldsOf(pieces[..i])[KeyOf(pieces[i]) := ValueOf(pieces[i])]
      else FieldsOf(pieces[..i])
  {
    assert pieces[..i + 1][..i] == pieces[..i];
  }

  /** The parsed reply of `read_sensor_data`: `None` for a reply that is empty once stripped. */
  function ReplyFields(raw: string): (r: Option<map<string, string>>)
    ensures r.None? <==> Strip(raw) == ""
  {
    if Strip(raw) == "" then None else Some(FieldsOf(Split(Strip(raw), ',')))
  }

  /** The loop at api/arduino/arduino.py:72-76 over the stripped, non-empty response. */
  method ParseReply(response: string) returns (data: map<string, string>)
    ensures data == FieldsOf(Split(response, ','))
  {
    var pieces := Split(response, ',');
    data := map[];
    var i := 0;
    while i < |pieces|
      invariant 0 <= i <= |pieces|
      invariant data == FieldsOf(pieces[..i])
    {
      var piece := pieces[i];
      FieldsOfStep(pieces, i);
      if ':' in piece {
        data := data[KeyOf(piece) := ValueOf(piece)];
      }
      i := i + 1;
    }
    assert pieces[..i] == pieces;
  }

  /** The command `trigger_watering(d)` sends. */
  function WaterCommand(duration: int): (c: string)
    ensures |c| > 6 && c[..6] == "WATER:" && ':' !in c[6..]
    ensures duration >= 0 ==> All(c[6..], Digit) && DigitsValue(c[6..]) == duration
    ensures duration >= 0 ==> Canonical(c[6..])
  {
    "WATER:" + IntToString(duration)
  }

  class ArduinoController {
    /** `_connection`: no port yet, or the last port `connect` opened. */
    var connection: Port?

    constructor ()
      ensures connection == null
    {
      connection := null;
    }

    /** A connection exists and is open. */
    predicate IsOpen()
      reads this, connection
    {
      connection != null && connection.isOpen
    }

    /** `connect()`: `opens` tells whether `serial.Serial(...)` succeeds. On success the
        field holds a new open port; on a `SerialException` it keeps its old value. */
    method Connect(opens: bool) returns (ok: bool)
      modifies this`connection
      ensures ok == opens
      ensures ok ==> fresh(connection) && IsOpen() && connection.output == [] && connection.flushed == 0
      ensures !ok ==> connection == old(connection)
    {
      if !opens {
        return false;
      }
      connection := new Port.Opened();
      ok := true;
    }

    /** `disconnect()`: closes the connection only when there is one and it is open. */
    method Disconnect()
      modifies connection
      ensures connection == old(connection)
      ensures connection != null ==> !connection.isOpen
      ensures connection != null ==> connection.output == old(connection.output)
      ensures connection != null ==> connection.flushed == old(connection.flushed)
    {
      if connection != null && connection.isOpen {
        connection.isOpen := false;
      }
    }

    /** `send_command(command)`: reconnect when there is no open connection, returning
        false without writing if that fails; then write the command and one newline,
        returning false when the write raises (`writeOk` false). */
    method SendCommand(command: string, opens: bool, writeOk: bool) returns (ok: bool)
      modifies this`connection, connection
      ensures ok <==> (old(IsOpen()) || opens) && writeOk
      ensures !old(IsOpen()) && !opens ==> connection == old(connection)
      ensures !old(IsOpen()) && opens ==> fresh(connection) && IsOpen()
      ensures old(IsOpen()) ==> connection == old(connection) && IsOpen()
      ensures old(IsOpen()) ==>
        connection.output == old(connection.output) + (if ok then [command + "\n"] else [])
      ensures !old(IsOpen()) && opens ==> connection.output == (if ok then [command + "\n"] else [])
      ensures !old(IsOpen()) && old(connection) != null ==>
        old(connection).output == old(connection.output) && !old(connection).isOpen
      ensures old(connection) != null ==> old(connection).flushed == old(connection.flushed)
      ensures !old(IsOpen()) && opens ==> connection.flushed == 0
    {
      if connection == null || !connection.isOpen {
        var connected := Connect(opens);
        if !connected {
          return false;
        }
      }
      if !writeOk {
        return false;
      }
      connection.output := connection.output + [command + "\n"];
      ok := true;
    }

    /** `trigger_watering(duration_seconds=5)`: sends `WATER:<d>` through `send_command`. */
    method TriggerWatering(opens: bool, writeOk: bool, duration: int := DefaultDuration) returns (ok: bool)
      modifies this`connection, connection
      ensures ok <==> (old(IsOpen()) || opens) && writeOk
      ensures !old(IsOpen()) && !opens ==> connection == old(connection)
      ensures !old(IsOpen()) && opens ==> fresh(connection) && IsOpen()
      ensures old(IsOpen()) ==> connection == old(connection) && IsOpen()
      ensures old(IsOpen()) ==>
        connection.output == old(connection.output) + (if ok then [WaterCommand(duration) + "\n"] else [])
      ensures !old(IsOpen()) && opens ==>
        connection.output == (if ok then [WaterCommand(duration) + "\n"] else [])
      ensures !old(IsOpen()) && old(connection) != null ==>
        old(connection).output == old(connection.output) && !old(connection).isOpen
      ensures old(connection) != null ==> old(connection).flushed == old(connection.flushed)
      ensures !old(IsOpen()) && opens ==> connection.flushed == 0
    {
      ok := SendCommand(WaterCommand(duration), opens, writeOk);
    }

    /** `read_sensor_data()`: reconnect if needed (giving `None` if that fails), write
        `READ` and one newline (`None` when the write raises), read one line. `reply` is
        what `readline()` returns, `None` when it raises. */
    method ReadSensorData(opens: bool, writeOk: bool, reply: Option<string>)
      returns (data: Option<map<string, string>>)
      modifies this`connection, connection
      ensures data.Some? ==> (old(IsOpen()) || opens) && writeOk && reply.Some?
      ensures (old(IsOpen()) || opens) && writeOk && reply.Some? ==> data == ReplyFields(reply.value)
      ensures !old(IsOpen()) && !opens ==> connection == old(connection)
      ensures !old(IsOpen()) && opens ==> fresh(connection) && IsOpen()
      ensures old(IsOpen()) ==> connection == old(connection) && IsOpen()
      ensures old(IsOpen()) ==>
        connection.output == old(connection.output) + (if writeOk then ["READ\n"] else [])
      ensures !old(IsOpen()) && opens ==> connection.output == (if writeOk then ["READ\n"] else [])
      ensures !old(IsOpen()) && old(connection) != null ==>
        old(connection).output == old(connection.output) && !old(connection).isOpen
      ensures old(connection) != null ==> old(connection).flushed == old(connection.flushed)
      ensures !old(IsOpen()) && opens ==> connection.flushed == 0
    {
      if connection == null || !connection.isOpen {
        var connected := Connect(opens);
        if !connected {
          return None;
        }
      }
      if !writeOk {
        return None;
      }
      connection.output := connection.output + ["READ\n"];
      if reply.None? {
        return None;
      }
      var response := Strip(reply.value);
      if response == "" {
        return None;
      }
      var fields := ParseReply(response);
      data := Some(fields);
    }
  }

  // ---------------------------------------------------------------------------
  // Properties of the reply parser

  /** A key is in the dictionary exactly when some piece with a ':' carries it. */
  lemma {:induction false} FieldsOfKeys(pieces: seq<string>, k: string)
    ensures k in FieldsOf(pieces) <==>
      exists i :: 0 <= i < |pieces| && Carries(pieces[i], k)
  {
    if pieces != [] {
      var init := pieces[..|pieces| - 1];
      var last := pieces[|pieces| - 1];
      FieldsOfKeys(init, k);
      assert forall i :: 0 <= i < |init| ==> init[i] == pieces[i];
      assert k in FieldsOf(pieces) <==> k in FieldsOf(init) || Carries(last, k);
    }
  }

  /** The piece has a ':' and its key is `k`. */
  predicate Carries(piece: string, k: string) {
    ':' in piece && KeyOf(piece) == k
  }

  /** The value stored under a key is the one of the last piece that carries it. */
  lemma {:induction false} LastPieceWins(pieces: seq<string>, i: nat)
    requires i < |pieces| && ':' in pieces[i]
    requires forall j :: i < j < |pieces| && ':' in pieces[j] ==> KeyOf(pieces[j]) != KeyOf(pieces[i])
    ensures KeyOf(pieces[i]) in FieldsOf(pieces)
    ensures FieldsOf(pieces)[KeyOf(pieces[i])] == ValueOf(pieces[i])
  {
    var init := pieces[..|pieces| - 1];
    if i < |pieces| - 1 {
      assert init[i] == pieces[i];
      forall j | i < j < |init| && ':' in init[j] ensures KeyOf(init[j]) != KeyOf(init[i]) {
        assert init[j] == pieces[j];
      }
      LastPieceWins(init, i);
    }
  }

  /** A piece `k:v` whose key has no ':' splits back into `k` and `v`, even when `v` holds ':'. */
  lemma PieceParts(k: string, v: string)
    requires ':' !in k
    ensures ':' in k + ":" + v
    ensures Before(k + ":" + v, ':') == k && After(k + ":" + v, ':') == v
  {
    var p := k + ":" + v;
    assert p[|k|] == ':';
    assert p[..|k|] == k;
    IndexOfAt(p, ':', |k|);
    assert p[|k| + 1..] == v;
  }

  /** A piece `k:v` with a trimmed key free of ':' and a trimmed value gives back `k` and `v`. */
  lemma PieceFields(k: string, v: string)
    requires ':' !in k && Trimmed(k) && Trimmed(v)
    ensures ':' in k + ":" + v && KeyOf(k + ":" + v) == k && ValueOf(k + ":" + v) == v
  {
    PieceParts(k, v);
    StripPadded([], k, []);
    assert [] + k + [] == k;
    StripPadded([], v, []);
    assert [] + v + [] == v;
  }

  /** Every pair piece gives back its key and its value. */
  lemma PairPieces(keys: seq<string>, values: seq<string>)
    requires |keys| == |values|
    requires forall i :: 0 <= i < |keys| ==> ':' !in keys[i] && Trimmed(keys[i]) && Trimmed(values[i])
    ensures forall i :: 0 <= i < |keys| ==>
      ':' in Pairs(keys, values)[i] && KeyOf(Pairs(keys, values)[i]) == keys[i] && ValueOf(Pairs(keys, values)[i]) == values[i]
  {
    forall i | 0 <= i < |keys|
      ensures ':' in Pairs(keys, values)[i] && KeyOf(Pairs(keys, values)[i]) == keys[i] && ValueOf(Pairs(keys, values)[i]) == values[i]
    {
      PieceFields(keys[i], values[i]);
    }
  }

  /** The dictionary of well-formed pieces holds exactly their keys. */
  lemma PairKeys(keys: seq<string>, values: seq<string>)
    requires |keys| == |values|
    requires forall i :: 0 <= i < |keys| ==> ':' !in keys[i] && Trimmed(keys[i]) && Trimmed(values[i])
    ensures FieldsOf(Pairs(keys, values)).Keys == (set i | 0 <= i < |keys| :: keys[i])
  {
    forall k ensures k in FieldsOf(Pairs(keys, values)) <==> k in (set i | 0 <= i < |keys| :: keys[i]) {
      PairKey(keys, values, k);
    }
  }

  lemma PairKey(keys: seq<string>, values: seq<string>, k: string)
    requires |keys| == |values|
    requires forall i :: 0 <= i < |keys| ==> ':' !in keys[i] && Trimmed(keys[i]) && Trimmed(values[i])
    ensures k in FieldsOf(Pairs(keys, values)) <==> exists i :: 0 <= i < |keys| && keys[i] == k
  {
    var pieces := Pairs(keys, values);
    PairPieces(keys, values);
    FieldsOfKeys(pieces, k);
    assert forall i :: 0 <= i < |keys| ==> (Carries(pieces[i], k) <==> keys[i] == k);
  }

  /** ... and, with distinct keys, maps each key to its own value. */
  lemma PairValues(keys: seq<string>, values: seq<string>, i: nat)
    requires |keys| == |values| && i < |keys|
    requires forall i :: 0 <= i < |keys| ==> ':' !in keys[i] && Trimmed(keys[i]) && Trimmed(values[i])
    requires forall i, j :: 0 <= i < j < |keys| ==> keys[i] != keys[j]
    ensures keys[i] in FieldsOf(Pairs(keys, values))
    ensures FieldsOf(Pairs(keys, values))[keys[i]] == values[i]
  {
    var pieces := Pairs(keys, values);
    PairPieces(keys, values);
    forall j | i < j < |pieces| && ':' in pieces[j] ensures KeyOf(pieces[j]) != KeyOf(pieces[i]) {
      assert KeyOf(pieces[j]) == keys[j] && KeyOf(pieces[i]) == keys[i];
    }
    LastPieceWins(pieces, i);
  }

  /** The dictionary of well-formed pieces with distinct keys is exactly their pairs. */
  lemma PairFields(keys: seq<string>, values: seq<string>)
    requires |keys| == |values|
    requires forall i :: 0 <= i < |keys| ==> ':' !in keys[i] && Trimmed(keys[i]) && Trimmed(values[i])
    requires forall i, j :: 0 <= i < j < |keys| ==> keys[i] != keys[j]
    ensures FieldsOf(Pairs(keys, values)).Keys == (set i | 0 <= i < |keys| :: keys[i])
    ensures forall i :: 0 <= i < |keys| ==> FieldsOf(Pairs(keys, values))[keys[i]] == values[i]
  {
    PairKeys(keys, values);
    forall i | 0 <= i < |keys| ensures FieldsOf(Pairs(keys, values))[keys[i]] == values[i] {
      PairValues(keys, values, i);
    }
  }

  /** The reply the device is expected to send, `K1:v1,K2:v2,...` with distinct trimmed
      keys free of ':' and ',' and trimmed values free of ',', parses back into exactly
      those pairs. */
  lemma ReplyRoundTrip(keys: seq<string>, values: seq<string>)
    requires |keys| == |values| > 0
    requires forall i :: 0 <= i < |keys| ==> ':' !in keys[i] && ',' !in keys[i] && Trimmed(keys[i])
    requires forall i :: 0 <= i < |values| ==> ',' !in values[i] && Trimmed(values[i])
    requires forall i, j :: 0 <= i < j < |keys| ==> keys[i] != keys[j]
    ensures var fields := FieldsOf(Split(Join(Pairs(keys, values), ','), ','));
      && fields.Keys == (set i | 0 <= i < |keys| :: keys[i])
      && forall i :: 0 <= i < |keys| ==> fields[keys[i]] == values[i]
  {
    var pieces := Pairs(keys, values);
    forall i | 0 <= i < |pieces| ensures ',' !in pieces[i] {
      assert pieces[i] == keys[i] + ":" + values[i];
    }
    SplitJoin(pieces, ',');
    PairFields(keys, values);
  }

  /** The pieces `keys[i] + ":" + values[i]`. */
  function Pairs(keys: seq<string>, values: seq<string>): (pieces: seq<string>)
    requires |keys| == |values|
    ensures |pieces| == |keys|
    ensures forall i :: 0 <= i < |keys| ==> pieces[i] == keys[i] + ":" + values[i]
  {
    if keys == [] then [] else Pairs(keys[..|keys| - 1], values[..|values| - 1]) + [keys[|keys| - 1] + ":" + values[|values| - 1]]
  }

  /** A reply with no ':' anywhere is not empty, yet parses into an empty dictionary. */
  lemma NoColonNoFields(raw: string)
    requires Strip(raw) != "" && ':' !in Strip(raw)
    ensures ReplyFields(raw) == Some(map[])
  {
    var pieces := Split(Strip(raw), ',');
    forall k ensures k !in FieldsOf(pieces) {
      FieldsOfKeys(pieces, k);
      JoinSplit(Strip(raw), ',');
      forall i | 0 <= i < |pieces| ensures ':' !in pieces[i] {
        JoinHolds(pieces, ',', i);
      }
    }
  }

  /** Every piece is a part of the joined string. */
  lemma {:induction false} JoinHolds(parts: seq<string>, sep: char, i: nat)
    requires |parts| > 0 && i < |parts|
    ensures forall c :: c in parts[i] ==> c in Join(parts, sep)
  {
    if |parts| > 1 && i > 0 {
      JoinHolds(parts[1..], sep, i - 1);
    }
  }

  /** `trigger_watering(d)` for a non-negative `d` sends `WATER:` and the digits of `d`,
      which the device reads back as `d`. */
  lemma WaterCommandRoundTrip(duration: nat)
    ensures ':' in WaterCommand(duration)
    ensures Before(WaterCommand(duration), ':') == "WATER"
    ensures All(After(WaterCommand(duration), ':'), Digit)
    ensures DigitsValue(After(WaterCommand(duration), ':')) == duration
  {
    var d := IntToString(duration);
    assert All(d, Digit) && DigitsValue(d) == duration;
    PieceParts("WATER", d);
    assert WaterCommand(duration) == "WATER" + ":" + d;
  }

  /** `trigger_watering()` without an argument sends `WATER:5`. */
  lemma DefaultWaterCommand()
    ensures WaterCommand(DefaultDuration) == "WATER:5"
  {
    assert NatDigits(5) == "5";
  }
}
