/**
 * controllers/sensorController.js: the ingestion pipeline every decoded line goes
 * through. `normalizeIncoming` resolves the synonym keys of a decoded object;
 * `processIncoming` checks the result, reads the sensor's recent history from the
 * store, asks the scorer for a status (falling back to Normal), saves the reading and
 * broadcasts it.
 *
 * The store, the scorer process and the event-stream sinks are collaborators: the
 * store is a `Collection` with an abstract query `findRecent`, the scorer is the
 * `spawn` answer of PythonCaller, and the sinks are a `Hub` with a write oracle.
 */
module SensorController {
  import opened Wrappers
  import opened JsValues
  import opened SensorModel
  import ZScore
  import PythonCaller
  import Broadcaster

  /** The keys tried for each field, in priority order. */
  const SensorIdKeys: seq<string> := ["sensorId", "sensor id", "sensor_id", "id", "devId"]
  const ValueKeys: seq<string> := ["value", "val", "temperature", "temp"]
  const LocationKeys: seq<string> := ["location", "location of sensor", "loc"]
  const TimeKeys: seq<string> := ["time", "Time", "timestamp", "t"]

  /** How many earlier readings are asked for when the caller gives no `historyCount`. */
  const DefaultHistoryCount: nat := 50

  /** The normalised reading; None stands for `undefined`. */
  datatype Normalized = Normalized(
    sensorId: Option<JsNumber>,
    value: Option<JsNumber>,
    location: JVal,
    time: Date,
    raw: JVal)

  /** Why `processIncoming` throws. */
  datatype Failure =
    | TypeErrorOnInput           // `incoming` is null or undefined: reading its keys throws
    | InvalidIncoming            // missing sensorId, or a value that is NaN
    | QueryFailure(q: QueryError)
    | SaveFailure(s: SaveError)

  /** The JavaScript value an optional number stands for. */
  function OrUndefined(x: Option<JsNumber>): JVal {
    if x.Some? then x.value else Undef
  }

  /** `x === undefined ? undefined : Number(x)` */
  function NumberUnlessUndefined(x: JVal, b: Builtins): Option<JsNumber> {
    if x.Undef? then None else Some(ToNumber(x, b))
  }

  /**
   * `normalizeIncoming(incoming)`. It throws a TypeError exactly when `incoming` is
   * null or undefined; otherwise the raw object is kept unchanged and the location is
   * never a falsy value other than ''.
   */
  function NormalizeIncoming(incoming: JVal, b: Builtins, now: int): (r: Result<Normalized, Failure>)
    ensures r.Err? <==> Nullish(incoming)
    ensures r.Err? ==> r.error == TypeErrorOnInput
    ensures r.Ok? ==> r.value.raw == incoming
    ensures r.Ok? ==> Truthy(r.value.location) || r.value.location == Str("")
  {
    if Nullish(incoming) then Err(TypeErrorOnInput)
    else
      var location := Coalesce(Chain(incoming, LocationKeys), Str(""));
      var time := Chain(incoming, TimeKeys);
      Ok(Normalized(
        NumberUnlessUndefined(Chain(incoming, SensorIdKeys), b),
        NumberUnlessUndefined(Chain(incoming, ValueKeys), b),
        if Truthy(location) then location else Str(""),
        if Truthy(time) then b.newDate(time) else At(now),
        incoming))
  }

  /** sensorId comes from the first of its keys whose value is neither undefined nor null, through `Number`. */
  lemma SensorIdFirstPresent(incoming: JVal, b: Builtins, now: int, i: nat)
    requires !Nullish(incoming) && i < |SensorIdKeys|
    requires !Nullish(Get(incoming, SensorIdKeys[i]))
    requires forall j :: 0 <= j < i ==> Nullish(Get(incoming, SensorIdKeys[j]))
    ensures NormalizeIncoming(incoming, b, now).value.sensorId == Some(ToNumber(Get(incoming, SensorIdKeys[i]), b))
  {
    ChainPicksFirstPresent(incoming, SensorIdKeys, i);
  }

  /**
   * With none of its keys present, sensorId stays undefined, unless the last key,
   * `devId`, holds null: `Number(null)` is 0.
   */
  lemma SensorIdWhenNoneGiven(incoming: JVal, b: Builtins, now: int)
    requires !Nullish(incoming)
    requires forall j :: 0 <= j < |SensorIdKeys| ==> Nullish(Get(incoming, SensorIdKeys[j]))
    ensures NormalizeIncoming(incoming, b, now).value.sensorId ==
      if Get(incoming, "devId").Null? then Some(Num(0.0)) else None
  {
    ChainFallsToLast(incoming, SensorIdKeys);
  }

  /** value comes from the first of its keys whose value is neither undefined nor null, through `Number`. */
  lemma ValueFirstPresent(incoming: JVal, b: Builtins, now: int, i: nat)
    requires !Nullish(incoming) && i < |ValueKeys|
    requires !Nullish(Get(incoming, ValueKeys[i]))
    requires forall j :: 0 <= j < i ==> Nullish(Get(incoming, ValueKeys[j]))
    ensures NormalizeIncoming(incoming, b, now).value.value == Some(ToNumber(Get(incoming, ValueKeys[i]), b))
  {
    ChainPicksFirstPresent(incoming, ValueKeys, i);
  }

  /** With none of its keys present, value stays undefined (or is 0 when `temp` holds null). */
  lemma ValueWhenNoneGiven(incoming: JVal, b: Builtins, now: int)
    requires !Nullish(incoming)
    requires forall j :: 0 <= j < |ValueKeys| ==> Nullish(Get(incoming, ValueKeys[j]))
    ensures NormalizeIncoming(incoming, b, now).value.value ==
      if Get(incoming, "temp").Null? then Some(Num(0.0)) else None
  {
    ChainFallsToLast(incoming, ValueKeys);
  }

  /** The location is the first present location key's value, or '' when that value is falsy or no key is present. */
  lemma LocationFirstPresent(incoming: JVal, b: Builtins, now: int, i: nat)
    requires !Nullish(incoming) && i <= |LocationKeys|
    requires i < |LocationKeys| ==> !Nullish(Get(incoming, LocationKeys[i]))
    requires forall j :: 0 <= j < i ==> Nullish(Get(incoming, LocationKeys[j]))
    ensures NormalizeIncoming(incoming, b, now).value.location ==
      if i < |LocationKeys| && Truthy(Get(incoming, LocationKeys[i])) then Get(incoming, LocationKeys[i]) else Str("")
  {
    if i < |LocationKeys| {
      ChainPicksFirstPresent(incoming, LocationKeys, i);
    } else {
      ChainFallsToLast(incoming, LocationKeys);
    }
  }

  /**
   * The time is `new Date(t)` for the first present time key's value t when t is
   * truthy, and the current time otherwise; an unparsable t is kept as an Invalid Date.
   */
  lemma TimeFirstPresent(incoming: JVal, b: Builtins, now: int, i: nat)
    requires !Nullish(incoming) && i <= |TimeKeys|
    requires i < |TimeKeys| ==> !Nullish(Get(incoming, TimeKeys[i]))
    requires forall j :: 0 <= j < i ==> Nullish(Get(incoming, TimeKeys[j]))
    ensures NormalizeIncoming(incoming, b, now).value.time ==
      if i < |TimeKeys| && Truthy(Get(incoming, TimeKeys[i])) then b.newDate(Get(incoming, TimeKeys[i])) else At(now)
  {
    if i < |TimeKeys| {
      ChainPicksFirstPresent(incoming, TimeKeys, i);
    } else {
      ChainFallsToLast(incoming, TimeKeys);
    }
  }

  /**
   * The check of lines 35-38: a missing sensorId or a NaN value is refused. An absent
   * value passes, since `Number.isNaN(undefined)` is false; a NaN sensorId passes too.
   */
  function Checked(incoming: JVal, b: Builtins, now: int): (r: Result<Normalized, Failure>)
    ensures Nullish(incoming) ==> r == Err(TypeErrorOnInput)
    ensures r == Err(InvalidIncoming) <==>
      && !Nullish(incoming)
      && (Chain(incoming, SensorIdKeys).Undef?
          || (!Chain(incoming, ValueKeys).Undef? && ToNumber(Chain(incoming, ValueKeys), b).NaN?))
    ensures r.Ok? ==> r == NormalizeIncoming(incoming, b, now)
    ensures r.Ok? ==> r.value.sensorId.Some? && r.value.value != Some(NaN)
  {
    match NormalizeIncoming(incoming, b, now)
    case Err(e) => Err(e)
    case Ok(n) => if n.sensorId.None? || n.value == Some(NaN) then Err(InvalidIncoming) else Ok(n)
  }

  /** `.filter(v => !Number.isNaN(v))` over numbers: keeps the non-NaN ones, in order. */
  function NumbersOnly(xs: seq<JsNumber>): (r: seq<real>)
    ensures |r| <= |xs|
    ensures forall x :: x in r <==> Num(x) in xs
  {
    if xs == [] then []
    else
      var rest := NumbersOnly(xs[1..]);
      assert forall x :: Num(x) in xs <==> Num(x) == xs[0] || Num(x) in xs[1..];
      if xs[0].Num? then [xs[0].n] + rest else rest
  }

  /**
   * The filter works number by number, keeping order: on a concatenation it is the
   * concatenation of the filtered halves; a finite number is kept, NaN is dropped.
   */
  lemma {:induction false} NumbersOnlyAppend(a: seq<JsNumber>, c: seq<JsNumber>)
    ensures NumbersOnly(a + c) == NumbersOnly(a) + NumbersOnly(c)
    ensures forall x :: NumbersOnly([Num(x)]) == [x]
    ensures NumbersOnly([NaN]) == []
    decreases |a|
  {
    if a == [] {
      assert a + c == c;
    } else {
      assert (a + c)[0] == a[0] && (a + c)[1..] == a[1..] + c;
      NumbersOnlyAppend(a[1..], c);
    }
  }

  /** `recentDocs.map(d => Number(d.value)).filter(...)`: the values of the readings returned. */
  function HistoryValues(recent: seq<Reading>): seq<real> {
    NumbersOnly(seq(|recent|, i requires 0 <= i < |recent| => Num(recent[i].value)))
  }

  /** A stored value is a number, so the filter keeps every reading's value, in the store's order. */
  lemma {:induction false} HistoryKeepsEveryValue(recent: seq<Reading>)
    ensures |HistoryValues(recent)| == |recent|
    ensures forall i :: 0 <= i < |recent| ==> HistoryValues(recent)[i] == recent[i].value
    decreases |recent|
  {
    if recent != [] {
      var xs := seq(|recent|, i requires 0 <= i < |recent| => Num(recent[i].value));
      assert xs[1..] == seq(|recent[1..]|, i requires 0 <= i < |recent[1..]| => Num(recent[1..][i].value));
      HistoryKeepsEveryValue(recent[1..]);
    }
  }

  /** The collaborators' answers: the store's query and whether it can be reached, the scorer process, whether the save is stored, and which sinks accept a write. */
  datatype Collaborators = Collaborators(
    findRecent: (seq<Reading>, real, nat) -> seq<Reading>,
    reachable: bool,
    spawn: PythonCaller.Request -> PythonCaller.SpawnResult,
    stored: bool,
    writeOk: Broadcaster.SinkId -> bool)

  /** `options.historyCount ?? 50` */
  function HistoryCount(historyCount: Option<nat>): nat {
    historyCount.GetOr(DefaultHistoryCount)
  }

  /** The status and zscore the document is built with. */
  datatype Verdict = Verdict(status: JVal, zscore: JVal)

  const NormalVerdict: Verdict := Verdict(Str("Normal"), Null)

  /**
   * Lines 51-58 and 68: a rejected call, or a result with no truthy `status`, gives
   * Normal with a null zscore; otherwise the result's status is used and its zscore,
   * with undefined read as null. The status is never falsy and the zscore never undefined.
   */
  function FailOpen(settled: PythonCaller.Settled): (v: Verdict)
    ensures Truthy(v.status) && !v.zscore.Undef?
    ensures settled.Rejected? ==> v == NormalVerdict
    ensures settled.Resolved? && Truthy(settled.value) && Truthy(Get(settled.value, "status")) ==>
      v.status == Get(settled.value, "status")
    ensures v != NormalVerdict ==> settled.Resolved? && Truthy(settled.value) && v.status == Get(settled.value, "status")
    ensures settled.Resolved? && Truthy(settled.value) && Truthy(Get(settled.value, "status")) ==>
      v.zscore == Coalesce(Get(settled.value, "zscore"), Null)
  {
    match settled
    case Rejected(_) => NormalVerdict
    case Resolved(result) =>
      if !Truthy(result) || !Truthy(Get(result, "status")) then NormalVerdict
      else Verdict(Get(result, "status"), Coalesce(Get(result, "zscore"), Null))
  }

  /** The document of lines 61-69. */
  function Document(n: Normalized, v: Verdict): DocInput {
    DocInput(
      OrUndefined(n.sensorId),
      OrUndefined(n.value),
      v.status,
      Some(n.time),
      n.location,
      n.raw,
      v.zscore)
  }

  /** The history handed to the scorer: the values of the store's answer, read before anything is saved. */
  function History(n: Normalized, count: nat, docs: seq<Reading>, fx: Collaborators): Result<seq<real>, Failure>
    requires n.sensorId.Some?
  {
    match FindOutcome(docs, n.sensorId.value, count, fx.findRecent, fx.reachable)
    case Err(e) => Err(QueryFailure(e))
    case Ok(recent) => Ok(HistoryValues(recent))
  }

  /** The scorer's verdict on a reading, given its history. */
  function Score(n: Normalized, history: seq<real>, fx: Collaborators, b: Builtins): Verdict {
    FailOpen(PythonCaller.ComputeStatus(history, OrUndefined(n.value), fx.spawn, b).settled)
  }

  /**
   * `processIncoming(incoming, {historyCount})` on the store contents `docs`: the saved
   * reading, or why it throws. Failures before the save leave the store alone.
   */
  function Ingest(incoming: JVal, historyCount: Option<nat>, b: Builtins, now: int,
                  docs: seq<Reading>, fx: Collaborators): (r: Result<Reading, Failure>)
    ensures Checked(incoming, b, now).Err? ==> r == Err(Checked(incoming, b, now).error)
    ensures r.Ok? ==> fx.stored && fx.reachable
    ensures Checked(incoming, b, now).Ok? ==>
      var n := Checked(incoming, b, now).value;
      var id := n.sensorId.value;
      (r.Ok? <==>
        && id.Num? && fx.reachable && fx.stored
        && Validate(Document(n, Score(n, HistoryValues(fx.findRecent(docs, id.n, HistoryCount(historyCount))), fx, b)),
                    b, now).Ok?)
    ensures r.Ok? ==>
      var n := Checked(incoming, b, now).value;
      && n.sensorId == Some(Num(r.value.sensorId))
      && n.value == Some(Num(r.value.value))
      && n.time == At(r.value.time)
      && (n.location.Str? ==> r.value.location == n.location.s)
      && r.value.raw == incoming
  {
    match Checked(incoming, b, now)
    case Err(e) => Err(e)
    case Ok(n) =>
      match History(n, HistoryCount(historyCount), docs, fx)
      case Err(e) => Err(e)
      case Ok(history) =>
        match SaveOutcome(Document(n, Score(n, history, fx, b)), b, now, fx.stored)
        case Err(e) => Err(SaveFailure(e))
        case Ok(saved) => Ok(saved)
  }

  /**
   * `processIncoming`: normalise and check, read the history, score with fail-open,
   * save, then broadcast the saved reading once. A failure anywhere before the save
   * leaves the store and the sinks untouched; a save failure is not broadcast.
   */
  method ProcessIncoming(incoming: JVal, historyCount: Option<nat>, b: Builtins, now: int, fx: Collaborators,
                         store: Collection, hub: Broadcaster.Hub)
    returns (r: Result<Reading, Failure>)
    requires hub.Valid()
    modifies store, hub
    ensures hub.Valid()
    ensures r == Ingest(incoming, historyCount, b, now, old(store.docs), fx)
    ensures store.docs == if r.Ok? then old(store.docs) + [r.value] else old(store.docs)
    ensures r.Ok? ==>
      && hub.clients == Broadcaster.Survivors(old(hub.clients), fx.writeOk)
      && hub.written == Broadcaster.Delivered(old(hub.written), old(hub.clients), fx.writeOk,
           Broadcaster.Frame(b.stringify(Broadcaster.EventJson("reading", ToJson(r.value, b)))))
    ensures r.Err? ==> hub.clients == old(hub.clients) && hub.written == old(hub.written)
  {
    var count := HistoryCount(historyCount);
    var checked := Checked(incoming, b, now);
    if checked.Err? {
      return Err(checked.error);
    }
    var n := checked.value;

    var found := store.Find(n.sensorId.value, count, fx.findRecent, fx.reachable);
    if found.Err? {
      return Err(QueryFailure(found.error));
    }
    var history := HistoryValues(found.value);

    var pyResult := NormalVerdict;
    var call := PythonCaller.ComputeStatus(history, OrUndefined(n.value), fx.spawn, b);
    pyResult := FailOpen(call.settled);

    var saved := store.Save(Document(n, pyResult), b, now, fx.stored);
    if saved.Err? {
      return Err(SaveFailure(saved.error));
    }

    var _ := hub.Broadcast("reading", ToJson(saved.value, b), b, fx.writeOk);
    return Ok(saved.value);
  }

  /** Nothing is read from the store and nothing saved when sensorId is missing or value is NaN. */
  lemma RejectedBeforeStore(incoming: JVal, historyCount: Option<nat>, b: Builtins, now: int,
                            docs: seq<Reading>, fx: Collaborators)
    requires !Nullish(incoming)
    requires var n := NormalizeIncoming(incoming, b, now).value; n.sensorId.None? || n.value == Some(NaN)
    ensures Ingest(incoming, historyCount, b, now, docs, fx) == Err(InvalidIncoming)
  {
  }

  /**
   * The history is that sensor's stored values, newest first, at most `historyCount`
   * (50 by default) of them, taken from the readings stored before this one.
   */
  lemma HistoryIsRecentWindow(n: Normalized, historyCount: Option<nat>, docs: seq<Reading>, fx: Collaborators)
    requires n.sensorId.Some? && n.sensorId.value.Num? && fx.reachable
    requires FindRecentSound(fx.findRecent)
    ensures var count := HistoryCount(historyCount);
      var window := fx.findRecent(docs, n.sensorId.value.n, count);
      && History(n, count, docs, fx) == Ok(HistoryValues(window))
      && IsRecentWindow(docs, n.sensorId.value.n, count, window)
      && (count > 0 ==> |HistoryValues(window)| <= count)
      && (historyCount.None? ==> |HistoryValues(window)| <= 50)
      && (forall i :: 0 <= i < |window| ==> window[i].sensorId == n.sensorId.value.n && window[i] in docs)
      && (forall i, j :: 0 <= i < j < |window| ==> window[i].time >= window[j].time)
  {
    var count := HistoryCount(historyCount);
    var id := n.sensorId.value.n;
    var window := fx.findRecent(docs, id, count);
    assert IsRecentWindow(docs, id, count, window);
    HistoryKeepsEveryValue(window);
    var mine := OfSensor(docs, id);
    forall i | 0 <= i < |window| ensures window[i].sensorId == id && window[i] in docs {
      assert window[i] in multiset(window);
      assert window[i] in multiset(mine);
    }
  }

  /** A NaN sensorId passes the check but fails the query, before anything is scored or saved. */
  lemma NaNSensorIdFailsQuery(incoming: JVal, historyCount: Option<nat>, b: Builtins, now: int,
                              docs: seq<Reading>, fx: Collaborators)
    requires Checked(incoming, b, now).Ok?
    requires Checked(incoming, b, now).value.sensorId == Some(NaN)
    ensures Ingest(incoming, historyCount, b, now, docs, fx) == Err(QueryFailure(FilterCastFailed))
  {
  }

  /**
   * An absent value passes the check, and the scorer is not run (the default `null`
   * is refused), but the save then fails on the required value.
   */
  lemma AbsentValueFailsAtSave(incoming: JVal, historyCount: Option<nat>, b: Builtins, now: int,
                               docs: seq<Reading>, fx: Collaborators)
    requires !Nullish(incoming)
    requires forall j :: 0 <= j < |ValueKeys| ==> Get(incoming, ValueKeys[j]).Undef?
    requires var n := NormalizeIncoming(incoming, b, now).value;
      n.sensorId.Some? && n.sensorId.value.Num? && fx.reachable
    ensures var n := NormalizeIncoming(incoming, b, now).value;
      && PythonCaller.ComputeStatus([], OrUndefined(n.value), fx.spawn, b).request.None?
      && Ingest(incoming, historyCount, b, now, docs, fx) == Err(SaveFailure(Invalid(Required(ValueField))))
  {
    ValueWhenNoneGiven(incoming, b, now);
  }

  /** A time that `new Date` cannot parse is not replaced by the current time: the save fails and nothing is stored. */
  lemma UnparsableTimeFailsAtSave(incoming: JVal, historyCount: Option<nat>, b: Builtins, now: int,
                                  docs: seq<Reading>, fx: Collaborators)
    requires Checked(incoming, b, now).Ok?
    requires Checked(incoming, b, now).value.time == InvalidDate
    ensures Ingest(incoming, historyCount, b, now, docs, fx).Err?
  {
  }

  /**
   * Fail-open: when the scorer cannot be run, or answers with no usable status, the
   * saved reading is Normal with no zscore.
   */
  lemma ScorerFailureSavesNormal(incoming: JVal, historyCount: Option<nat>, b: Builtins, now: int,
                                 docs: seq<Reading>, fx: Collaborators)
    requires var r := Ingest(incoming, historyCount, b, now, docs, fx); r.Ok?
    requires forall req :: fx.spawn(req).Threw? || fx.spawn(req).error.Some?
    ensures var r := Ingest(incoming, historyCount, b, now, docs, fx); r.value.status == "Normal" && r.value.zscore.None?
  {
    var n := Checked(incoming, b, now).value;
  }

  /** A parsed scorer answer that carries `status` and a numeric or null `zscore`. */
  predicate ReportsStatus(parsed: JVal, status: string) {
    && parsed.Obj?
    && "status" in parsed.fields && parsed.fields["status"] == Str(status)
    && "zscore" in parsed.fields && (parsed.fields["zscore"].Null? || parsed.fields["zscore"].Num?)
  }

  /** The scorer process runs the z-score script on its input and its stdout parses to the script's verdict. */
  ghost predicate RunsScript(spawn: PythonCaller.Request -> PythonCaller.SpawnResult, b: Builtins, py: ZScore.PyBuiltins) {
    forall req :: var res := spawn(req);
      && res.Finished? && res.error.None? && res.stdout.Some? && Trim(res.stdout.value) != []
      && b.parseJson(Trim(res.stdout.value)).Some?
      && ReportsStatus(b.parseJson(Trim(res.stdout.value)).value, ZScore.Main(req.input, py).status)
  }

  /** The caller's JSON text reads back in Python as the payload it was made from. */
  ghost predicate PayloadRoundTrips(b: Builtins, py: ZScore.PyBuiltins) {
    forall h: seq<real>, v: real ::
      b.stringify(ZScore.CallerPayload(h, v)) != "" &&
      py.loads(b.stringify(ZScore.CallerPayload(h, v))) == Some(ZScore.CallerPayload(h, v))
  }

  /** A scorer answer carrying a non-empty status is taken as it is. */
  lemma FailOpenKeepsReportedStatus(parsed: JVal, status: string)
    requires ReportsStatus(parsed, status) && status != ""
    ensures FailOpen(PythonCaller.Resolved(parsed)).status == Str(status)
  {
    assert Get(parsed, "status") == Str(status);
  }

  /** With a scorer that runs the script, the verdict's status is the script's answer to the request sent. */
  lemma ScoreIsScriptStatus(n: Normalized, history: seq<real>, fx: Collaborators, b: Builtins, py: ZScore.PyBuiltins)
    requires n.value.Some? && n.value.value.Num?
    requires RunsScript(fx.spawn, b, py)
    ensures var input := b.stringify(ZScore.CallerPayload(history, n.value.value.n));
      Score(n, history, fx, b).status == Str(ZScore.Main(input, py).status)
  {
    var input := b.stringify(ZScore.CallerPayload(history, n.value.value.n));
    var req := PythonCaller.Request(input, PythonCaller.TimeoutMs);
    var res := fx.spawn(req);
    var parsed := b.parseJson(Trim(res.stdout.value)).value;
    var status := ZScore.Main(input, py).status;
    assert ReportsStatus(parsed, status);
    var call := PythonCaller.ComputeStatus(history, OrUndefined(n.value), fx.spawn, b);
    assert call.request == Some(req);
    assert call.settled == PythonCaller.Resolved(parsed);
    FailOpenKeepsReportedStatus(parsed, status);
  }

  /** With a scorer that runs the script, the verdict's status is the z-score rule's. */
  lemma ScoreIsZScoreVerdict(n: Normalized, history: seq<real>, fx: Collaborators, b: Builtins, py: ZScore.PyBuiltins)
    requires n.value.Some? && n.value.value.Num?
    requires RunsScript(fx.spawn, b, py) && PayloadRoundTrips(b, py)
    ensures Score(n, history, fx, b).status ==
      Str(if |history| < 2 then "Normal" else ZScore.Decide(history, ZScore.Fin(n.value.value.n)).status)
  {
    var v := n.value.value.n;
    var input := b.stringify(ZScore.CallerPayload(history, v));
    ScoreIsScriptStatus(n, history, fx, b, py);
    assert b.stringify(ZScore.CallerPayload(history, v)) != "" &&
      py.loads(b.stringify(ZScore.CallerPayload(history, v))) == Some(ZScore.CallerPayload(history, v));
    ZScore.MainOnCallerPayload(input, py, history, v);
  }

  /**
   * End to end: when the scorer runs the z-score script on the request it is given,
   * the saved status is the z-score rule's verdict on the value against that
   * sensor's earlier stored values.
   */
  lemma StatusIsZScoreVerdict(incoming: JVal, historyCount: Option<nat>, b: Builtins, now: int,
                              docs: seq<Reading>, fx: Collaborators, py: ZScore.PyBuiltins)
    requires Ingest(incoming, historyCount, b, now, docs, fx).Ok?
    requires var n := Checked(incoming, b, now).value; n.value.Some? && n.value.value.Num?
    requires RunsScript(fx.spawn, b, py) && PayloadRoundTrips(b, py)
    ensures var n := Checked(incoming, b, now).value;
      var history := HistoryValues(fx.findRecent(docs, n.sensorId.value.n, HistoryCount(historyCount)));
      Ingest(incoming, historyCount, b, now, docs, fx).value.status ==
        if |history| < 2 then "Normal" else ZScore.Decide(history, ZScore.Fin(n.value.value.n)).status
  {
    var n := Checked(incoming, b, now).value;
    var count := HistoryCount(historyCount);
    assert n.sensorId.value.Num?;
    var history := HistoryValues(fx.findRecent(docs, n.sensorId.value.n, count));
    assert History(n, count, docs, fx) == Ok(history);
    var verdict := Score(n, history, fx, b);
    ScoreIsZScoreVerdict(n, history, fx, b, py);
    var d := Document(n, verdict);
    assert d.status == verdict.status;
    var r := Ingest(incoming, historyCount, b, now, docs, fx);
    assert SaveOutcome(d, b, now, fx.stored) == Ok(r.value);
    assert Validate(d, b, now) == Ok(r.value);
  }
}
