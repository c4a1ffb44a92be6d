/**
 * serial/reader.js: the wired serial reader the server starts. It accepts two line
 * formats, JSON and comma fields, with no check that the comma fields are numbers;
 * it opens its port once and never reopens it.
 */
module SerialReader {
  import opened Wrappers
  import opened JsValues
  import opened SensorModel
  import SensorController
  import Broadcaster
  import BluetoothReader

  /** What the 'data' handler makes of one line before the pipeline runs. */
  datatype Decoded =
    | Ignored               // blank after trimming
    | Dropped               // neither JSON nor a comma line: logged and dropped
    | Forward(incoming: JVal)

  /** The comma format's object: `Number` of the first two fields, then the optional time and location, unchecked. */
  function CsvRecord(parts: seq<string>, b: Builtins): (v: JVal)
    requires |parts| >= 2
    ensures v.Obj? && v.fields.Keys == {"sensorId", "value", "time", "location"}
    ensures v.fields["sensorId"] == b.numberOfString(parts[0]) && v.fields["value"] == b.numberOfString(parts[1])
    ensures v.fields["time"] == if |parts| > 2 then Str(parts[2]) else Undef
    ensures v.fields["location"] == Str(if |parts| > 3 then parts[3] else "")
  {
    Obj(map[
      "sensorId" := b.numberOfString(parts[0]),
      "value" := b.numberOfString(parts[1]),
      "time" := if |parts| > 2 then Str(parts[2]) else Undef,
      "location" := Str(if |parts| > 3 && parts[3] != "" then parts[3] else "")])
  }

  /**
   * The 'data' handler's decoding (lines 25-45): blank lines are ignored; a line
   * JSON.parse accepts is forwarded as parsed; otherwise any line holding a comma is
   * forwarded as comma fields, and only a comma-free line is dropped.
   */
  function DecodeLine(line: string, b: Builtins): (d: Decoded)
    ensures d.Ignored? <==> Trim(line) == []
    ensures d.Dropped? <==> Trim(line) != [] && b.parseJson(Trim(line)).None? && NoSep(Trim(line), IsComma)
    ensures d.Forward? && b.parseJson(Trim(line)).Some? ==> d.incoming == b.parseJson(Trim(line)).value
    ensures d.Forward? && b.parseJson(Trim(line)).None? ==>
      var parts := TrimAll(Split(Trim(line), IsComma));
      |parts| >= 2 && d.incoming == CsvRecord(parts, b)
  {
    var t := Trim(line);
    if t == [] then Ignored
    else match b.parseJson(t)
      case Some(v) => Forward(v)
      case None =>
        SplitsIffSep(t, IsComma);
        var parts := TrimAll(Split(t, IsComma));
        if |parts| >= 2 then Forward(CsvRecord(parts, b)) else Dropped
  }

  /**
   * Where the Bluetooth reader decodes a line as JSON or as numeric comma fields,
   * this reader decodes it to the same object.
   */
  lemma AgreesWithBluetoothOnJsonAndNumbers(line: string, b: Builtins)
    ensures var d := BluetoothReader.DecodeLine(line, b);
      d.Forward? && d.rule in {BluetoothReader.JsonRule, BluetoothReader.CommaRule} ==>
        DecodeLine(line, b) == Forward(d.incoming)
  {
    var d := BluetoothReader.DecodeLine(line, b);
    var t := Trim(line);
    if d.Forward? && d.rule == BluetoothReader.CommaRule {
      var parts := TrimAll(Split(t, IsComma));
      assert b.parseJson(t).None?;
      assert |parts| >= 2 && d.incoming == BluetoothReader.CommaRecord(parts, b);
      assert CsvRecord(parts, b) == BluetoothReader.CommaRecord(parts, b);
    }
  }

  /**
   * Unlike the Bluetooth reader, this one forwards a comma line whose sensor field is
   * not a number: the id becomes NaN, the pipeline's check lets it through, and the
   * reading is lost when the store refuses the NaN filter.
   */
  lemma NonNumericIdFailsAtQuery(line: string, b: Builtins, now: int, historyCount: Option<nat>,
                                 docs: seq<Reading>, fx: SensorController.Collaborators)
    requires var t := Trim(line); t != [] && b.parseJson(t).None?
    requires var parts := TrimAll(Split(Trim(line), IsComma));
      |parts| >= 2 && !Numeric(parts[0], b) && Numeric(parts[1], b)
    ensures DecodeLine(line, b).Forward?
    ensures SensorController.Ingest(DecodeLine(line, b).incoming, historyCount, b, now, docs, fx)
      == Err(SensorController.QueryFailure(FilterCastFailed))
  {
    var parts := TrimAll(Split(Trim(line), IsComma));
    var incoming := CsvRecord(parts, b);
    assert DecodeLine(line, b) == Forward(incoming);
    CsvIdIsNaN(parts, b, now);
    SensorController.NaNSensorIdFailsQuery(incoming, historyCount, b, now, docs, fx);
  }

  /** The comma record of a non-numeric id and a numeric value passes the pipeline's check with a NaN id. */
  lemma CsvIdIsNaN(parts: seq<string>, b: Builtins, now: int)
    requires |parts| >= 2 && !Numeric(parts[0], b) && Numeric(parts[1], b)
    ensures SensorController.Checked(CsvRecord(parts, b), b, now).Ok?
    ensures SensorController.Checked(CsvRecord(parts, b), b, now).value.sensorId == Some(NaN)
  {
    var incoming := CsvRecord(parts, b);
    assert Get(incoming, SensorController.SensorIdKeys[0]) == NaN;
    SensorController.SensorIdFirstPresent(incoming, b, now, 0);
    assert Get(incoming, SensorController.ValueKeys[0]) == b.numberOfString(parts[1]);
    SensorController.ValueFirstPresent(incoming, b, now, 0);
  }

  /**
   * A `;`-separated pairs line with no comma, which the Bluetooth reader forwards key
   * by key, is dropped by this reader.
   */
  lemma PairsLineDropped(pairs: seq<string>, b: Builtins)
    requires |pairs| > 1
    requires forall i :: 0 <= i < |pairs| ==> NoSep(pairs[i], IsSemicolon) && Trim(pairs[i]) == pairs[i] && pairs[i] != []
    requires var line := Join(pairs, ';'); Trim(line) == line && NoSep(line, IsComma) && b.parseJson(line).None?
    ensures DecodeLine(Join(pairs, ';'), b) == Dropped
    ensures BluetoothReader.DecodeLine(Join(pairs, ';'), b).Forward?
  {
    BluetoothReader.PairsLine(pairs, b);
  }

  /** What became of one line. */
  datatype LineOutcome =
    | LineIgnored
    | LineDropped
    | Processed(result: Result<Reading, SensorController.Failure>)

  /**
   * The 'data' handler: decode the line and, for a decoded line, run the pipeline
   * once with the default history size; a pipeline failure is caught and logged. An
   * ignored or dropped line touches neither the store nor the sinks.
   */
  method OnData(line: string, b: Builtins, now: int, fx: SensorController.Collaborators,
                store: Collection, hub: Broadcaster.Hub)
    returns (outcome: LineOutcome)
    requires hub.Valid()
    modifies store, hub
    ensures hub.Valid()
    ensures outcome == match DecodeLine(line, b)
      case Ignored => LineIgnored
      case Dropped => LineDropped
      case Forward(incoming) => Processed(SensorController.Ingest(incoming, None, b, now, old(store.docs), fx))
    ensures outcome.Processed? && outcome.result.Ok? ==>
      && store.docs == old(store.docs) + [outcome.result.value]
      && hub.clients == Broadcaster.Survivors(old(hub.clients), fx.writeOk)
      && hub.written == Broadcaster.Delivered(old(hub.written), old(hub.clients), fx.writeOk,
           Broadcaster.Frame(b.stringify(Broadcaster.EventJson("reading", ToJson(outcome.result.value, b)))))
    ensures !(outcome.Processed? && outcome.result.Ok?) ==>
      store.docs == old(store.docs) && hub.clients == old(hub.clients) && hub.written == old(hub.written)
  {
    match DecodeLine(line, b) {
      case Ignored => outcome := LineIgnored;
      case Dropped => outcome := LineDropped;
      case Forward(incoming) =>
        var r := SensorController.ProcessIncoming(incoming, None, b, now, fx, store, hub);
        outcome := Processed(r);
    }
  }

  /** The port's life: no port at all, or a port that may be open and may have its one open attempt under way. */
  datatype Link = Disabled | Port(open: bool, opening: bool)

  /** What the port reports. The reader registers no 'close' handler; a close still leaves the port closed. */
  datatype PortEvent = OpenDone(ok: bool) | Closed | PortError(message: string)

  /** `startSerialIfConfigured(path)`: without a path the reader is disabled; otherwise it opens the port once. */
  function Start(path: Option<string>): (l: Link)
    ensures l.Disabled? <==> path.None? || path.value == ""
    ensures l.Port? ==> l == Port(false, true)
  {
    if path.None? || path.value == "" then Disabled else Port(false, true)
  }

  /**
   * One event. The open callback only logs, so a failed open leaves the port closed;
   * no event ever starts another open attempt; a port error changes nothing.
   */
  function Step(l: Link, e: PortEvent): (l': Link)
    ensures l.Disabled? ==> l' == Disabled
    ensures e.PortError? ==> l' == l
    ensures l'.Port? && l'.opening ==> l.Port? && l.opening
    ensures l'.Port? && l'.open ==> l.Port? && (l.open || (l.opening && e == OpenDone(true)))
    ensures l.Port? && l.opening && e.OpenDone? ==> l' == Port(e.ok, false)
    ensures l.Port? && e.Closed? ==> l' == Port(false, l.opening)
  {
    match l
    case Disabled => Disabled
    case Port(open, opening) =>
      match e
      case OpenDone(ok) => if opening then Port(ok, false) else l
      case Closed => Port(false, opening)
      case PortError(_) => l
  }

  function Run(l: Link, events: seq<PortEvent>): Link
    decreases |events|
  {
    if events == [] then l else Run(Step(l, events[0]), events[1..])
  }

  /** A closed port with no attempt under way stays closed whatever happens: nothing reopens it. */
  lemma {:induction false} ClosedStaysClosed(events: seq<PortEvent>)
    ensures Run(Port(false, false), events) == Port(false, false)
    decreases |events|
  {
    if events != [] {
      ClosedStaysClosed(events[1..]);
    }
  }

  /** After a failed first open, or a close, the reader never reads again. */
  lemma NoRecovery(path: string, events: seq<PortEvent>)
    requires path != ""
    ensures Run(Start(Some(path)), [OpenDone(false)] + events) == Port(false, false)
    ensures Run(Port(true, false), [Closed] + events) == Port(false, false)
  {
    assert ([OpenDone(false)] + events)[1..] == events;
    assert ([Closed] + events)[1..] == events;
    ClosedStaysClosed(events);
  }
}
