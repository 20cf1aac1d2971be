/** The abstract outside world the daemon, the API and the serial controller
    share: the two files in the data directory and a serial port. */
module Io {
  import opened Wrappers

  /** An ISO-8601 time stamp as `datetime.now().isoformat()` produces it; the clock
      is an input to every operation that reads it. */
  type Stamp = string

  /** A JSON scalar as `json.load` returns it: None, bool, int, float or str. */
  datatype Value = VNull | VBool(b: bool) | VInt(i: int) | VFloat(x: real) | VStr(s: string)

  /** A JSON object, the only kind of document the sensor file holds. */
  type Doc = map<string, Value>

  /** Python's `d.get(key)`: the stored value, or None when the key is absent. */
  function Lookup(d: Doc, key: string): (v: Value)
    ensures key !in d ==> v == VNull
  {
    if key in d then d[key] else VNull
  }

  /** The sensor file as a reader finds it: missing, not readable or not valid
      JSON (a torn concurrent write, a permission error), or holding a document. */
  datatype MirrorFile = NoFile | Unreadable | Holds(doc: Doc)

  /** The data directory: the sensor file the daemon writes and the API reads, and
      the command file the API writes and the daemon consumes (`None` = no file). */
  class DataDir {
    var mirror: MirrorFile
    var command: Option<string>
    /** Every string successfully written to the command file, oldest first. */
    ghost var commandWrites: seq<string>

    constructor (mirror: MirrorFile, command: Option<string>)
      ensures this.mirror == mirror && this.command == command && commandWrites == []
    {
      this.mirror := mirror;
      this.command := command;
      commandWrites := [];
    }
  }

  /** A pyserial `Serial` object: whether it is open, every chunk written to it in
      order, and how many of those chunks a `flush()` has pushed out. */
  class Port {
    var isOpen: bool
    var output: seq<string>
    var flushed: nat

    constructor Opened()
      ensures isOpen && output == [] && flushed == 0
    {
      isOpen, output, flushed := true, [], 0;
    }

    constructor Closed()
      ensures !isOpen && output == [] && flushed == 0
    {
      isOpen, output, flushed := false, [], 0;
    }
  }
}
