/**
 * utils/bluetoothReader.js: a serial-line reader that accepts four line formats,
 * tried in a fixed order (JSON, comma fields, `;`-separated key/value pairs,
 * whitespace tokens), forwards what it decodes to the ingestion pipeline, and keeps
 * reopening its port five seconds after every failed open or close.
 */
module BluetoothReader {
  import opened Wrappers
  import opened JsValues
  import opened SensorModel
  import SensorController
  import Broadcaster

  /** Which format a line was read as. */
  datatype Rule = JsonRule | CommaRule | PairsRule | TokensRule

  /** What the 'data' handler makes of one line before the pipeline runs. */
  datatype Decoded =
    | Ignored                             // blank after trimming
    | Dropped                             // no format matched: logged and dropped
    | Forward(incoming: JVal, rule: Rule) // handed to processIncoming

  /** The comma rule's object: numeric id and value, then optional time and location. */
  function CommaRecord(csv: seq<string>, b: Builtins): JVal
    requires |csv| >= 2
  {
    Obj(map[
      "sensorId" := b.numberOfString(csv[0]),
      "value" := b.numberOfString(csv[1]),
      "time" := if |csv| > 2 then Str(csv[2]) else Undef,
      "location" := Str(if |csv| > 3 then csv[3] else "")])
  }

  /**
   * One `;` segment split on `:` or `=`: the first piece, trimmed, is the key; the
   * other pieces re-joined with `:` and trimmed are the value. None when the first
   * piece is empty.
   */
  function SplitPair(pair: string): Option<(string, string)> {
    var pieces := Split(pair, IsColonOrEquals);
    if pieces[0] == [] then None
    else Some((Trim(pieces[0]), Trim(Join(pieces[1..], ':'))))
  }

  /** Each segment split into its key and value, or None when its key is empty. */
  function SplitPairs(pairs: seq<string>): (kvs: seq<Option<(string, string)>>)
    ensures |kvs| == |pairs|
    decreases |pairs|
  {
    if pairs == [] then [] else SplitPairs(pairs[..|pairs| - 1]) + [SplitPair(pairs[|pairs| - 1])]
  }

  lemma {:induction false} SplitPairsAt(pairs: seq<string>, j: nat)
    requires j < |pairs|
    ensures SplitPairs(pairs)[j] == SplitPair(pairs[j])
    decreases |pairs|
  {
    if j < |pairs| - 1 {
      SplitPairsAt(pairs[..|pairs| - 1], j);
    }
  }

  /** Assigning split segments in order, a later key overwriting an earlier one. */
  function Assign(kvs: seq<Option<(string, string)>>): map<string, JVal>
    decreases |kvs|
  {
    if kvs == [] then map[]
    else
      var fields := Assign(kvs[..|kvs| - 1]);
      match kvs[|kvs| - 1]
      case None => fields
      case Some(kv) => fields[kv.0 := Str(kv.1)]
  }

  /** The fields the pairs rule builds from its segments. */
  function PairFields(pairs: seq<string>): map<string, JVal> {
    Assign(SplitPairs(pairs))
  }

  /** The `forEach` of lines 64-70: start from `{}` and assign key by key. */
  method BuildPairFields(pairs: seq<string>) returns (fields: map<string, JVal>)
    ensures fields == PairFields(pairs)
  {
    fields := map[];
    for i := 0 to |pairs|
      invariant fields == Assign(SplitPairs(pairs[..i]))
    {
      var kv := SplitPair(pairs[i]);
      assert pairs[..i + 1][..i] == pairs[..i];
      AssignSnoc(SplitPairs(pairs[..i]), kv);
      if kv.Some? {
        fields := fields[kv.value.0 := Str(kv.value.1)];
      }
    }
    assert pairs[..|pairs|] == pairs;
  }

  /** Assigning one more segment updates at most its own key. */
  lemma AssignSnoc(kvs: seq<Option<(string, string)>>, kv: Option<(string, string)>)
    ensures Assign(kvs + [kv]) == match kv
      case None => Assign(kvs)
      case Some(p) => Assign(kvs)[p.0 := Str(p.1)]
  {
    assert (kvs + [kv])[..|kvs|] == kvs;
  }

  lemma {:induction false} AssignAbsentKey(kvs: seq<Option<(string, string)>>, key: string)
    requires forall i :: 0 <= i < |kvs| ==> kvs[i].None? || kvs[i].value.0 != key
    ensures key !in Assign(kvs)
    decreases |kvs|
  {
    if kvs != [] {
      AssignAbsentKey(kvs[..|kvs| - 1], key);
    }
  }

  lemma {:induction false} AssignLastWins(kvs: seq<Option<(string, string)>>, key: string, i: nat)
    requires i < |kvs| && kvs[i].Some? && kvs[i].value.0 == key
    requires forall j :: i < j < |kvs| ==> kvs[j].None? || kvs[j].value.0 != key
    ensures key in Assign(kvs) && Assign(kvs)[key] == Str(kvs[i].value.1)
    decreases |kvs|
  {
    if i < |kvs| - 1 {
      AssignLastWins(kvs[..|kvs| - 1], key, i);
    }
  }

  /** A key the segments never give is absent from the fields. */
  lemma PairFieldsAbsentKey(pairs: seq<string>, key: string)
    requires forall i :: 0 <= i < |pairs| ==> SplitPair(pairs[i]).None? || SplitPair(pairs[i]).value.0 != key
    ensures key !in PairFields(pairs)
  {
    forall j | 0 <= j < |pairs| ensures SplitPairs(pairs)[j] == SplitPair(pairs[j]) {
      SplitPairsAt(pairs, j);
    }
    AssignAbsentKey(SplitPairs(pairs), key);
  }

  /** A key takes the value of the last segment that gives it. */
  lemma PairFieldsLastWins(pairs: seq<string>, key: string, i: nat)
    requires i < |pairs| && SplitPair(pairs[i]).Some? && SplitPair(pairs[i]).value.0 == key
    requires forall j :: i < j < |pairs| ==> SplitPair(pairs[j]).None? || SplitPair(pairs[j]).value.0 != key
    ensures key in PairFields(pairs) && PairFields(pairs)[key] == Str(SplitPair(pairs[i]).value.1)
  {
    forall j | i <= j < |pairs| ensures SplitPairs(pairs)[j] == SplitPair(pairs[j]) {
      SplitPairsAt(pairs, j);
    }
    AssignLastWins(SplitPairs(pairs), key, i);
  }

  /**
   * A segment `k` `c` `v` whose key part k holds no `:` or `=` gives the trimmed key k
   * and the trimmed rest v, with every further `=` in v turned into `:`.
   */
  lemma SplitPairAtFirstSeparator(k: string, c: char, v: string)
    requires k != [] && NoSep(k, IsColonOrEquals) && IsColonOrEquals(c)
    ensures SplitPair(k + [c] + v) == Some((Trim(k), Trim(ReplaceSeps(v, IsColonOrEquals, ':'))))
  {
    SplitAtFirstSep(k, c, v, IsColonOrEquals);
    var pieces := [k] + Split(v, IsColonOrEquals);
    assert pieces[1..] == Split(v, IsColonOrEquals);
    JoinSplit(v, IsColonOrEquals, ':');
  }

  /** `line.split(/\s+/)` on a trimmed, non-empty line: the maximal runs of non-space characters. */
  function Tokens(t: string): seq<string> {
    NonEmptyOnly(Split(t, IsSpace))
  }

  /** The comma rule's fields: the line split at every `,`, each field trimmed. */
  function CommaFields(t: string): seq<string> {
    TrimAll(Split(t, IsComma))
  }

  /** The pairs rule's segments: the line split at every `;`, trimmed, the empty ones dropped. */
  function PairSegments(t: string): seq<string> {
    NonEmptyOnly(TrimAll(Split(t, IsSemicolon)))
  }

  /** The comma and token rules accept two or more fields whose first two read as numbers. */
  predicate TwoNumbers(fields: seq<string>, b: Builtins) {
    |fields| >= 2 && Numeric(fields[0], b) && Numeric(fields[1], b)
  }

  /** The token rule's object: the first two tokens as sensorId and value, and nothing else. */
  function TokenRecord(sp: seq<string>, b: Builtins): JVal
    requires |sp| >= 2
  {
    Obj(map["sensorId" := b.numberOfString(sp[0]), "value" := b.numberOfString(sp[1])])
  }

  /**
   * The 'data' handler's decoding (lines 45-84). Blank lines are ignored; a line
   * JSON.parse accepts is forwarded as parsed; only when it throws are the comma,
   * pairs and token rules tried, in that order (`DecodeLineRules`); a line no rule
   * accepts is dropped.
   */
  function DecodeLine(line: string, b: Builtins): (d: Decoded)
    ensures d.Ignored? <==> Trim(line) == []
    ensures d.Forward? && d.rule == JsonRule <==> Trim(line) != [] && b.parseJson(Trim(line)).Some?
    ensures d.Forward? && d.rule == JsonRule ==> d.incoming == b.parseJson(Trim(line)).value
  {
    var t := Trim(line);
    if t == [] then Ignored
    else match b.parseJson(t)
      case Some(v) => Forward(v, JsonRule)
      case None => DecodeDelimited(t, b)
  }

  /** The rules tried after JSON.parse throws: comma fields, then pairs and tokens. */
  function DecodeDelimited(t: string, b: Builtins): (d: Decoded)
    ensures !d.Ignored? && !(d.Forward? && d.rule == JsonRule)
    ensures d.Forward? && d.rule == CommaRule <==> TwoNumbers(CommaFields(t), b)
    ensures d.Forward? && d.rule == CommaRule ==> d.incoming == CommaRecord(CommaFields(t), b)
    ensures !TwoNumbers(CommaFields(t), b) ==> d == DecodePairsOrTokens(t, b)
  {
    var csv := CommaFields(t);
    if TwoNumbers(csv, b) then Forward(CommaRecord(csv, b), CommaRule)
    else DecodePairsOrTokens(t, b)
  }

  /** The pairs rule, then the token rule, for a line the comma rule refuses. */
  function DecodePairsOrTokens(t: string, b: Builtins): (d: Decoded)
    ensures !d.Ignored? && !(d.Forward? && d.rule in {JsonRule, CommaRule})
    ensures d.Forward? && d.rule == PairsRule <==> |PairSegments(t)| > 1
    ensures d.Forward? && d.rule == PairsRule ==> d.incoming == Obj(PairFields(PairSegments(t)))
    ensures d.Forward? && d.rule == TokensRule <==> |PairSegments(t)| <= 1 && TwoNumbers(Tokens(t), b)
    ensures d.Forward? && d.rule == TokensRule ==> d.incoming == TokenRecord(Tokens(t), b)
    ensures d.Dropped? <==> |PairSegments(t)| <= 1 && !TwoNumbers(Tokens(t), b)
  {
    var pairs := PairSegments(t);
    if |pairs| > 1 then Forward(Obj(PairFields(pairs)), PairsRule)
    else
      var sp := Tokens(t);
      if TwoNumbers(sp, b) then Forward(TokenRecord(sp, b), TokensRule)
      else Dropped
  }

  /**
   * After JSON.parse throws on the trimmed line, each later rule takes it exactly
   * when the rules before it refused it and its own test passes, and builds its
   * object from the pieces it tested; a line no rule accepts is dropped.
   */
  lemma DecodeLineRules(line: string, b: Builtins)
    ensures var d := DecodeLine(line, b); var t := Trim(line); var delimited := t != [] && b.parseJson(t).None?;
      && (d.Forward? && d.rule == CommaRule <==> delimited && TwoNumbers(CommaFields(t), b))
      && (d.Forward? && d.rule == PairsRule <==>
            delimited && !TwoNumbers(CommaFields(t), b) && |PairSegments(t)| > 1)
      && (d.Forward? && d.rule == TokensRule <==>
            delimited && !TwoNumbers(CommaFields(t), b) && |PairSegments(t)| <= 1 && TwoNumbers(Tokens(t), b))
      && (d.Dropped? <==>
            delimited && !TwoNumbers(CommaFields(t), b) && |PairSegments(t)| <= 1 && !TwoNumbers(Tokens(t), b))
    ensures var d := DecodeLine(line, b); var t := Trim(line);
      && (d.Forward? && d.rule == CommaRule ==> d.incoming == CommaRecord(CommaFields(t), b))
      && (d.Forward? && d.rule == PairsRule ==> d.incoming == Obj(PairFields(PairSegments(t))))
      && (d.Forward? && d.rule == TokensRule ==> d.incoming == TokenRecord(Tokens(t), b))
  {
  }

  /** The comma and token rules forward a finite sensorId and a finite value. */
  lemma ForwardsNumbers(line: string, b: Builtins)
    ensures var d := DecodeLine(line, b);
      d.Forward? && d.rule in {CommaRule, TokensRule} ==>
        && d.incoming.Obj? && "sensorId" in d.incoming.fields && "value" in d.incoming.fields
        && d.incoming.fields["sensorId"].Num? && d.incoming.fields["value"].Num?
  {
    DecodeLineRules(line, b);
    var t := Trim(line);
    if t != [] && b.parseJson(t).None? {
      if TwoNumbers(CommaFields(t), b) {
        RecordsHoldNumbers(CommaFields(t), b);
      } else if TwoNumbers(Tokens(t), b) {
        RecordsHoldNumbers(Tokens(t), b);
      }
    }
  }

  /** Built from two numeric fields, the comma and token objects carry two numbers. */
  lemma RecordsHoldNumbers(fields: seq<string>, b: Builtins)
    requires TwoNumbers(fields, b)
    ensures var c := CommaRecord(fields, b).fields; c["sensorId"].Num? && c["value"].Num?
    ensures var k := TokenRecord(fields, b).fields; k["sensorId"].Num? && k["value"].Num?
  {
  }

  /** The decoding as the handler runs it, with the pairs rule's key-by-key loop. */
  method Decode(line: string, b: Builtins) returns (d: Decoded)
    ensures d == DecodeLine(line, b)
  {
    var t := Trim(line);
    if t == [] {
      return Ignored;
    }
    var parsed := b.parseJson(t);
    if parsed.Some? {
      return Forward(parsed.value, JsonRule);
    }
    var csv := CommaFields(t);
    if TwoNumbers(csv, b) {
      return Forward(CommaRecord(csv, b), CommaRule);
    }
    var pairs := PairSegments(t);
    if |pairs| > 1 {
      var fields := BuildPairFields(pairs);
      return Forward(Obj(fields), PairsRule);
    }
    var sp := Tokens(t);
    if TwoNumbers(sp, b) {
      return Forward(TokenRecord(sp, b), TokensRule);
    }
    return Dropped;
  }

  /**
   * A comma-joined line of already-trimmed fields that JSON.parse refuses and whose
   * first two fields are numbers is read by the comma rule, field by field.
   */
  lemma CommaLine(parts: seq<string>, b: Builtins)
    requires |parts| >= 2
    requires forall i :: 0 <= i < |parts| ==> NoSep(parts[i], IsComma) && Trim(parts[i]) == parts[i]
    requires var line := Join(parts, ','); Trim(line) == line && line != [] && b.parseJson(line).None?
    requires Numeric(parts[0], b) && Numeric(parts[1], b)
    ensures DecodeLine(Join(parts, ','), b) == Forward(CommaRecord(parts, b), CommaRule)
  {
    var line := Join(parts, ',');
    SplitJoin(parts, IsComma, ',');
    assert Split(line, IsComma) == parts;
    TrimAllTrimmed(parts);
    assert TrimAll(Split(line, IsComma)) == parts;
    assert DecodeDelimited(line, b) == Forward(CommaRecord(parts, b), CommaRule);
  }

  /** A line with no comma, semicolon or white space that JSON.parse refuses matches no rule and is dropped. */
  lemma SingleWordDropped(line: string, b: Builtins)
    requires line != [] && b.parseJson(line).None?
    requires forall i :: 0 <= i < |line| ==> !IsComma(line[i]) && !IsSemicolon(line[i]) && !IsSpace(line[i])
    ensures DecodeLine(line, b) == Dropped
  {
    TrimmedAlready(line);
    SplitNoSep(line, IsComma);
    SplitNoSep(line, IsSemicolon);
    SplitNoSep(line, IsSpace);
    assert TrimAll([line]) == [line];
    assert NonEmptyOnly([line]) == [line];
    assert DecodePairsOrTokens(line, b) == Dropped;
    assert DecodeDelimited(line, b) == Dropped;
  }

  /**
   * A comma-free line of two or more trimmed, non-empty `;` segments that JSON.parse
   * refuses is read by the pairs rule, segment by segment.
   */
  lemma PairsLine(pairs: seq<string>, b: Builtins)
    requires |pairs| > 1
    requires forall i :: 0 <= i < |pairs| ==> NoSep(pairs[i], IsSemicolon) && Trim(pairs[i]) == pairs[i] && pairs[i] != []
    requires var line := Join(pairs, ';'); Trim(line) == line && NoSep(line, IsComma) && b.parseJson(line).None?
    ensures DecodeLine(Join(pairs, ';'), b) == Forward(Obj(PairFields(pairs)), PairsRule)
  {
    var line := Join(pairs, ';');
    assert line != [] by {
      assert |line| >= |pairs[0]| by { JoinLength(pairs, ';'); }
    }
    SplitNoSep(line, IsComma);
    TrimAllTrimmed([line]);
    SplitJoin(pairs, IsSemicolon, ';');
    TrimAllTrimmed(pairs);
    NonEmptyOnlyKeepsAll(pairs);
    assert TrimAll(Split(line, IsComma)) == [line];
    assert DecodePairsOrTokens(line, b) == Forward(Obj(PairFields(pairs)), PairsRule);
    assert DecodeDelimited(line, b) == Forward(Obj(PairFields(pairs)), PairsRule);
  }

  /**
   * A line of two numeric tokens with a single space between them and no comma or
   * semicolon, such as "1 25.4", that JSON.parse refuses is read by the token rule.
   */
  lemma TokensLine(x: string, y: string, b: Builtins)
    requires x != [] && y != []
    requires forall c :: c in x + y ==> !IsSpace(c) && !IsComma(c) && !IsSemicolon(c)
    requires Numeric(x, b) && Numeric(y, b) && b.parseJson(x + " " + y).None?
    ensures DecodeLine(x + " " + y, b) == Forward(TokenRecord([x, y], b), TokensRule)
  {
    var line := x + " " + y;
    TwoTokens(x, y);
    OneFieldLine(line, b);
    assert DecodePairsOrTokens(line, b) == Forward(TokenRecord([x, y], b), TokensRule);
    assert DecodeDelimited(line, b) == Forward(TokenRecord([x, y], b), TokensRule);
    NonJsonLine(line, b);
  }

  /** Two space-free, separator-free words joined by one space: a trimmed line of exactly those two tokens. */
  lemma TwoTokens(x: string, y: string)
    requires x != [] && y != []
    requires forall c :: c in x + y ==> !IsSpace(c) && !IsComma(c) && !IsSemicolon(c)
    ensures var line := x + " " + y;
      && !IsSpace(line[0]) && !IsSpace(line[|line| - 1])
      && NoSep(line, IsComma) && NoSep(line, IsSemicolon)
      && Tokens(line) == [x, y]
  {
    var line := x + " " + y;
    assert line == x + [' '] + y;
    assert x[0] in x + y && y[|y| - 1] in x + y;
    assert line[0] == x[0] && line[|line| - 1] == y[|y| - 1];
    assert forall c :: c in line ==> c == ' ' || c in x + y;
    assert NoSep(x, IsSpace) && NoSep(y, IsSpace);
    SplitAtFirstSep(x, ' ', y, IsSpace);
    SplitNoSep(y, IsSpace);
    NonEmptyOnlyKeepsAll([x, y]);
  }

  /** A trimmed, non-empty line with no comma or semicolon has one comma field and one pairs segment. */
  lemma OneFieldLine(line: string, b: Builtins)
    requires line != [] && !IsSpace(line[0]) && !IsSpace(line[|line| - 1])
    requires NoSep(line, IsComma) && NoSep(line, IsSemicolon)
    ensures CommaFields(line) == [line] && PairSegments(line) == [line]
    ensures !TwoNumbers(CommaFields(line), b)
  {
    TrimmedAlready(line);
    SplitNoSep(line, IsComma);
    SplitNoSep(line, IsSemicolon);
    TrimAllTrimmed([line]);
    NonEmptyOnlyKeepsAll([line]);
  }

  /** The line "," is read by the comma rule as sensor 0, value 0, since `Number('')` is 0. */
  lemma EmptyCommaFields(line: string, b: Builtins)
    requires |line| == 1 && line[0] == ',' && b.parseJson(line).None? && b.numberOfString("") == Num(0.0)
    ensures DecodeLine(line, b) == Forward(CommaRecord(["", ""], b), CommaRule)
    ensures CommaRecord(["", ""], b).fields["sensorId"] == Num(0.0) && CommaRecord(["", ""], b).fields["value"] == Num(0.0)
  {
    LoneCommaFields(line);
    EmptyFieldsAreZero(b);
    CommaRuleApplies(line, b);
    NonJsonLine(line, b);
  }

  /** The line "," has two comma fields, both empty, and no white space at its ends. */
  lemma LoneCommaFields(line: string)
    requires |line| == 1 && line[0] == ','
    ensures CommaFields(line) == ["", ""] && !IsSpace(line[0])
  {
    assert line == "" + [','] + "";
    SplitAtFirstSep("", ',', "", IsComma);
    TrimAllTrimmed(["", ""]);
  }

  /** With `Number('')` 0, two empty comma fields pass the comma rule's test and make sensor 0 and value 0. */
  lemma EmptyFieldsAreZero(b: Builtins)
    requires b.numberOfString("") == Num(0.0)
    ensures TwoNumbers(["", ""], b)
    ensures CommaRecord(["", ""], b).fields["sensorId"] == Num(0.0) && CommaRecord(["", ""], b).fields["value"] == Num(0.0)
  {
  }

  /** A line whose first two comma fields are numbers is read by the comma rule. */
  lemma CommaRuleApplies(t: string, b: Builtins)
    requires TwoNumbers(CommaFields(t), b)
    ensures DecodeDelimited(t, b) == Forward(CommaRecord(CommaFields(t), b), CommaRule)
  {
  }

  /** A trimmed, non-empty line that JSON.parse refuses goes to the delimited rules. */
  lemma NonJsonLine(line: string, b: Builtins)
    requires line != [] && b.parseJson(line).None?
    requires !IsSpace(line[0]) && !IsSpace(line[|line| - 1])
    ensures DecodeLine(line, b) == DecodeDelimited(line, b)
  {
    TrimmedAlready(line);
  }

  /** What became of one line. */
  datatype LineOutcome =
    | LineIgnored
    | LineDropped
    | Processed(result: Result<Reading, SensorController.Failure>)

  /**
   * The 'data' handler: decode the line, and for a decoded line run the pipeline once
   * with the default history size. A pipeline failure is caught and ends the handler;
   * an ignored or dropped line touches neither the store nor the sinks.
   */
  method OnData(line: string, b: Builtins, now: int, fx: SensorController.Collaborators,
                store: Collection, hub: Broadcaster.Hub)
    returns (outcome: LineOutcome)
    requires hub.Valid()
    modifies store, hub
    ensures hub.Valid()
    ensures outcome == match DecodeLine(line, b)
      case Ignored => LineIgnored
      case Dropped => LineDropped
      case Forward(incoming, _) => Processed(SensorController.Ingest(incoming, None, b, now, old(store.docs), fx))
    ensures outcome.Processed? && outcome.result.Ok? ==>
      && store.docs == old(store.docs) + [outcome.result.value]
      && hub.clients == Broadcaster.Survivors(old(hub.clients), fx.writeOk)
      && hub.written == Broadcaster.Delivered(old(hub.written), old(hub.clients), fx.writeOk,
           Broadcaster.Frame(b.stringify(Broadcaster.EventJson("reading", ToJson(outcome.result.value, b)))))
    ensures !(outcome.Processed? && outcome.result.Ok?) ==>
      store.docs == old(store.docs) && hub.clients == old(hub.clients) && hub.written == old(hub.written)
  {
    var d := Decode(line, b);
    match d {
      case Ignored => outcome := LineIgnored;
      case Dropped => outcome := LineDropped;
      case Forward(incoming, _) =>
        var r := SensorController.ProcessIncoming(incoming, None, b, now, fx, store, hub);
        outcome := Processed(r);
    }
  }

  /** The port's life: no port at all, or a port that may be open, may have an open attempt under way, and has some reopen timers pending. */
  datatype Link = Disabled | Port(open: bool, opening: bool, pendingRetries: nat)

  /** What the port and its timers report. */
  datatype PortEvent = OpenDone(ok: bool) | RetryFired | Closed | PortError(message: string)

  /** The delay of every reopen, in milliseconds. */
  const RetryDelayMs: nat := 5000

  /** `startSerialIfConfigured(path)`: without a path the reader is disabled; otherwise it opens at once. */
  function Start(path: Option<string>): (l: Link)
    ensures l.Disabled? <==> path.None? || path.value == ""
    ensures l.Port? ==> l == Port(false, true, 0)
  {
    if path.None? || path.value == "" then Disabled else Port(false, true, 0)
  }

  /**
   * One event. A failed open or a close schedules a reopen after RetryDelayMs; a
   * fired timer starts a new open attempt; a port error changes nothing; a disabled
   * reader has no port and never changes.
   */
  function Step(l: Link, e: PortEvent): (l': Link)
    ensures l.Disabled? ==> l' == Disabled
    ensures e.PortError? ==> l' == l
    ensures l.Port? && e.Closed? ==> l' == Port(false, l.opening, l.pendingRetries + 1)
    ensures l.Port? && l.opening && e == OpenDone(false) ==> l' == Port(l.open, false, l.pendingRetries + 1)
    ensures l.Port? && l.opening && e == OpenDone(true) ==> l' == Port(true, false, l.pendingRetries)
    ensures l.Port? && l.pendingRetries > 0 && e.RetryFired? ==> l' == Port(l.open, true, l.pendingRetries - 1)
  {
    match l
    case Disabled => Disabled
    case Port(open, opening, pending) =>
      match e
      case OpenDone(ok) =>
        if !opening then l
        else if ok then Port(true, false, pending)
        else Port(open, false, pending + 1)
      case RetryFired => if pending == 0 then l else Port(open, true, pending - 1)
      case Closed => Port(false, opening, pending + 1)
      case PortError(_) => l
  }

  function Run(l: Link, events: seq<PortEvent>): Link
    decreases |events|
  {
    if events == [] then l else Run(Step(l, events[0]), events[1..])
  }

  /** A disabled reader stays disabled whatever happens. */
  lemma {:induction false} DisabledForever(events: seq<PortEvent>)
    ensures Run(Disabled, events) == Disabled
    decreases |events|
  {
    if events != [] {
      DisabledForever(events[1..]);
    }
  }

  /** `k` rounds of a failed open followed by its reopen timer. */
  function FailedRounds(k: nat): (es: seq<PortEvent>)
    ensures |es| == 2 * k
  {
    if k == 0 then [] else [OpenDone(false), RetryFired] + FailedRounds(k - 1)
  }

  /** Reopening never gives up: after any number of failed attempts an attempt is under way again. */
  lemma {:induction false} RetriesNeverStop(open: bool, pending: nat, k: nat)
    ensures Run(Port(open, true, pending), FailedRounds(k)) == Port(open, true, pending)
    decreases k
  {
    if k > 0 {
      var es := FailedRounds(k);
      assert es[1..][1..] == FailedRounds(k - 1);
      RetriesNeverStop(open, pending, k - 1);
    }
  }

  /** After a close, the reader reopens and, once an attempt succeeds, is open again. */
  lemma ReopensAfterClose(pending: nat)
    ensures Run(Port(true, false, pending), [Closed, RetryFired, OpenDone(true)]) == Port(true, false, pending)
  {
    assert [Closed, RetryFired, OpenDone(true)][1..] == [RetryFired, OpenDone(true)];
    assert [RetryFired, OpenDone(true)][1..] == [OpenDone(true)];
  }
}
