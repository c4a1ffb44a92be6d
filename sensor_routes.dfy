/**
 * routes/sensorRoutes.js: the HTTP API. `POST /` stores a reading taken from the
 * request body as given (the client's status is trusted and nothing is scored);
 * `GET /latest` and `GET /history/:sensorId` list stored readings, newest first,
 * under a capped limit; `GET /stream` opens an event stream and registers it with
 * the broadcaster.
 */
module SensorRoutes {
  import opened Wrappers
  import opened JsValues
  import opened SensorModel
  import Broadcaster

  /** The keys the POST route reads, in priority order: fewer synonyms than the ingestion pipeline. */
  const PostSensorIdKeys: seq<string> := ["sensorId", "sensor id", "sensor_id", "id"]
  const PostValueKeys: seq<string> := ["value", "val"]
  const PostLocationKeys: seq<string> := ["location", "location of sensor"]
  const PostTimeKeys: seq<string> := ["time", "Time", "timestamp"]

  /** The POST body after lines 13-22: the raw id and location, the numeric value, and a time that is always valid. */
  datatype PostInput = PostInput(sensorId: JVal, value: JsNumber, location: JVal, time: int, incoming: JVal)

  /**
   * Lines 13-22. A falsy body is read as `{}`; the time is `new Date(t)` when t is
   * truthy and parses, and the current time otherwise, so it is never invalid.
   */
  function NormalizePost(body: JVal, b: Builtins, now: int): (p: PostInput)
    ensures p.incoming == if Truthy(body) then body else Obj(map[])
    ensures Truthy(p.incoming) && !Nullish(p.incoming)
    ensures p.sensorId == Chain(p.incoming, PostSensorIdKeys)
    ensures p.value == ToNumber(Chain(p.incoming, PostValueKeys), b)
    ensures !Nullish(p.location) && (Nullish(Chain(p.incoming, PostLocationKeys)) ==> p.location == Str(""))
    ensures !Nullish(Chain(p.incoming, PostLocationKeys)) ==> p.location == Chain(p.incoming, PostLocationKeys)
    ensures var t := Chain(p.incoming, PostTimeKeys);
      p.time == if Truthy(t) && b.newDate(t).At? then b.newDate(t).ms else now
  {
    var incoming := if Truthy(body) then body else Obj(map[]);
    var time := Chain(incoming, PostTimeKeys);
    var parsed := if Truthy(time) then b.newDate(time) else At(now);
    PostInput(
      Chain(incoming, PostSensorIdKeys),
      ToNumber(Chain(incoming, PostValueKeys), b),
      Coalesce(Chain(incoming, PostLocationKeys), Str("")),
      if parsed.At? then parsed.ms else now,
      incoming)
  }

  /** The document of lines 28-35: the client's status, or Normal; no zscore is given. */
  function PostDocument(p: PostInput, b: Builtins): DocInput
    requires !Nullish(p.incoming)
  {
    DocInput(
      ToNumber(p.sensorId, b),
      p.value,
      Coalesce(Get(p.incoming, "status"), Str("Normal")),
      Some(At(p.time)),
      p.location,
      p.incoming,
      Undef)
  }

  /** The POST route's answer: 400, 201 with the stored reading, or 500 with why the save failed. */
  datatype PostResponse = BadRequest | Created(reading: Reading) | PostFailed(error: SaveError)

  function StatusCode(r: PostResponse): int {
    match r
    case BadRequest => 400
    case Created(_) => 201
    case PostFailed(_) => 500
  }

  /** Whether the check of lines 24-26 refuses the body: an id that is exactly undefined, or a NaN value. */
  predicate Refused(p: PostInput) {
    p.sensorId.Undef? || p.value.NaN?
  }

  /**
   * `POST /` on the store contents before the save. A refused body is a 400; a body
   * that passes is saved unless the schema or the store refuses it, and then it is a
   * 500. The time and the value can never be why a save fails.
   */
  function PostOutcome(body: JVal, b: Builtins, now: int, stored: bool): (r: PostResponse)
    ensures r.BadRequest? <==> Refused(NormalizePost(body, b, now))
    ensures !Refused(NormalizePost(body, b, now)) ==>
      (r.Created? <==> stored && Validate(PostDocument(NormalizePost(body, b, now), b), b, now).Ok?)
    ensures r.Created? ==> stored && Validate(PostDocument(NormalizePost(body, b, now), b), b, now) == Ok(r.reading)
    ensures r.Created? ==> r.reading.time == NormalizePost(body, b, now).time && r.reading.zscore.None?
    ensures var status := Get(NormalizePost(body, b, now).incoming, "status");
      && (r.Created? && status.Str? ==> r.reading.status == status.s)
      && (r.Created? && Nullish(status) ==> r.reading.status == "Normal")
    ensures r.PostFailed? ==>
      r.error in {Invalid(CastFailed(SensorIdField)), Invalid(CastFailed(StatusField)),
                  Invalid(CastFailed(LocationField)), StoreFailed}
  {
    var p := NormalizePost(body, b, now);
    if Refused(p) then BadRequest
    else
      var d := PostDocument(p, b);
      PostSaveFailures(d, b, now, stored);
      match SaveOutcome(d, b, now, stored)
      case Ok(reading) => Created(reading)
      case Err(e) => PostFailed(e)
  }

  /** A document with a numeric id or NaN, a number value, a valid time and no zscore fails to save only on the id, the status, the location or the store. */
  lemma PostSaveFailures(d: DocInput, b: Builtins, now: int, stored: bool)
    requires (d.sensorId.Num? || d.sensorId.NaN?) && d.value.Num? && d.zscore.Undef?
    requires d.time.Some? && d.time.value.At? && !Nullish(d.status) && !Nullish(d.location)
    ensures SaveOutcome(d, b, now, stored).Err? ==>
      SaveOutcome(d, b, now, stored).error in {Invalid(CastFailed(SensorIdField)), Invalid(CastFailed(StatusField)),
                                               Invalid(CastFailed(LocationField)), StoreFailed}
  {
  }

  /**
   * `POST /`: check, save, broadcast the stored reading, answer. The store and the
   * sinks change only when the reading is created.
   */
  method Post(body: JVal, b: Builtins, now: int, stored: bool, writeOk: Broadcaster.SinkId -> bool,
              store: Collection, hub: Broadcaster.Hub)
    returns (r: PostResponse)
    requires hub.Valid()
    modifies store, hub
    ensures hub.Valid()
    ensures r == PostOutcome(body, b, now, stored)
    ensures store.docs == if r.Created? then old(store.docs) + [r.reading] else old(store.docs)
    ensures r.Created? ==>
      && hub.clients == Broadcaster.Survivors(old(hub.clients), writeOk)
      && hub.written == Broadcaster.Delivered(old(hub.written), old(hub.clients), writeOk,
           Broadcaster.Frame(b.stringify(Broadcaster.EventJson("reading", ToJson(r.reading, b)))))
    ensures !r.Created? ==> hub.clients == old(hub.clients) && hub.written == old(hub.written)
  {
    var p := NormalizePost(body, b, now);
    if Refused(p) {
      return BadRequest;
    }
    var saved := store.Save(PostDocument(p, b), b, now, stored);
    if saved.Err? {
      return PostFailed(saved.error);
    }
    var _ := hub.Broadcast("reading", ToJson(saved.value, b), b, writeOk);
    return Created(saved.value);
  }

  /** The id is refused only when every id key is absent or null and `id` itself is undefined. */
  lemma {:induction false} MissingIdIsRefused(body: JVal, b: Builtins, now: int)
    ensures var incoming := NormalizePost(body, b, now).incoming;
      NormalizePost(body, b, now).sensorId.Undef? <==>
        (forall j :: 0 <= j < |PostSensorIdKeys| ==> Nullish(Get(incoming, PostSensorIdKeys[j])))
        && Get(incoming, "id").Undef?
  {
    var incoming := NormalizePost(body, b, now).incoming;
    var keys := PostSensorIdKeys;
    if forall j :: 0 <= j < |keys| - 1 ==> Nullish(Get(incoming, keys[j])) {
      ChainFallsToLast(incoming, keys);
    } else {
      var i :| 0 <= i < |keys| - 1 && !Nullish(Get(incoming, keys[i]));
      if i > 0 && !Nullish(Get(incoming, keys[0])) {
        i := 0;
      } else if i > 1 && !Nullish(Get(incoming, keys[1])) {
        i := 1;
      }
      ChainPicksFirstPresent(incoming, keys, i);
    }
  }

  /**
   * A body whose id keys are all missing except `id: null` passes the check and is
   * stored as sensor 0, since `Number(null)` is 0.
   */
  lemma NullIdIsSensorZero(body: JVal, b: Builtins, now: int, stored: bool)
    requires Truthy(body)
    requires forall j :: 0 <= j < |PostSensorIdKeys| - 1 ==> Nullish(Get(body, PostSensorIdKeys[j]))
    requires Get(body, "id").Null?
    ensures var r := PostOutcome(body, b, now, stored); r.Created? ==> r.reading.sensorId == 0.0
  {
    ChainFallsToLast(body, PostSensorIdKeys);
  }

  /**
   * A time that `new Date` cannot parse is replaced by the current time, so the
   * reading is still stored (the ingestion pipeline fails its save instead).
   */
  lemma UnparsableTimeFallsBackToNow(body: JVal, b: Builtins, now: int, stored: bool)
    requires Truthy(body) && !Nullish(Get(body, "time")) && Truthy(Get(body, "time"))
    requires b.newDate(Get(body, "time")) == InvalidDate
    ensures var r := PostOutcome(body, b, now, stored); r.Created? ==> r.reading.time == now
  {
    ChainPicksFirstPresent(body, PostTimeKeys, 0);
  }

  /**
   * `Math.min(parseInt(raw || fallback, 10), cap)`: None when parseInt yields NaN
   * (Math.min then yields NaN too); otherwise never above the cap.
   */
  function LimitOf(raw: Option<string>, fallback: string, cap: int, b: Builtins): (l: Option<int>)
    ensures l.Some? ==> l.value <= cap
    ensures var text := if raw.None? || raw.value == "" then fallback else raw.value;
      && (l.None? <==> b.parseInt(text).None?)
      && (l.Some? && b.parseInt(text).value <= cap ==> l.value == b.parseInt(text).value)
      && (l.Some? && b.parseInt(text).value > cap ==> l.value == cap)
  {
    var text := if raw.None? || raw.value == "" then fallback else raw.value;
    match b.parseInt(text)
    case None => None
    case Some(k) => Some(if k <= cap then k else cap)
  }

  const LatestDefaultLimit: string := "20"
  const LatestCap: int := 1000
  const HistoryDefaultLimit: string := "200"
  const HistoryCap: int := 5000

  /** The `GET` routes' answer: 200 with the count and the readings, or 500. */
  datatype ListResponse = Listed(count: nat, readings: seq<Reading>) | ListFailed(error: QueryError)

  function ToListResponse(r: Result<seq<Reading>, QueryError>): (resp: ListResponse)
    ensures r.Ok? ==> resp == Listed(|r.value|, r.value)
    ensures r.Err? ==> resp == ListFailed(r.error)
  {
    match r
    case Ok(docs) => Listed(|docs|, docs)
    case Err(e) => ListFailed(e)
  }

  /** `/latest` filters on a truthy `sensorId` parameter, through `Number`, and on nothing otherwise. */
  function LatestFilter(sensorId: Option<string>, b: Builtins): (f: Filter)
    ensures f.All? <==> sensorId.None? || sensorId.value == ""
    ensures f.BySensor? ==> f.id == b.numberOfString(sensorId.value)
  {
    if sensorId.Some? && sensorId.value != "" then BySensor(b.numberOfString(sensorId.value)) else All
  }

  /** `GET /latest?sensorId&limit` */
  method Latest(sensorId: Option<string>, limit: Option<string>, b: Builtins,
                findNewest: (seq<Reading>, Option<int>) -> seq<Reading>, reachable: bool, store: Collection)
    returns (resp: ListResponse)
    ensures resp == ToListResponse(ListOutcome(store.docs, LatestFilter(sensorId, b),
                                   LimitOf(limit, LatestDefaultLimit, LatestCap, b), findNewest, reachable))
  {
    var n := LimitOf(limit, LatestDefaultLimit, LatestCap, b);
    var f := LatestFilter(sensorId, b);
    var found := store.List(f, n, findNewest, reachable);
    resp := ToListResponse(found);
  }

  /** `GET /history/:sensorId?limit`: the path parameter is always a filter, through `Number`. */
  method History(sensorId: string, limit: Option<string>, b: Builtins,
                 findNewest: (seq<Reading>, Option<int>) -> seq<Reading>, reachable: bool, store: Collection)
    returns (resp: ListResponse)
    ensures resp == ToListResponse(ListOutcome(store.docs, BySensor(b.numberOfString(sensorId)),
                                   LimitOf(limit, HistoryDefaultLimit, HistoryCap, b), findNewest, reachable))
  {
    var n := LimitOf(limit, HistoryDefaultLimit, HistoryCap, b);
    var found := store.List(BySensor(b.numberOfString(sensorId)), n, findNewest, reachable);
    resp := ToListResponse(found);
  }

  /**
   * With a positive limit, `/latest` answers with the newest readings the filter
   * matches, at most 1000 of them, each of the requested sensor.
   */
  lemma LatestIsCappedNewest(sensorId: Option<string>, limit: Option<string>, b: Builtins, docs: seq<Reading>,
                             findNewest: (seq<Reading>, Option<int>) -> seq<Reading>)
    requires FindNewestSound(findNewest)
    requires var n := LimitOf(limit, LatestDefaultLimit, LatestCap, b); n.Some? && n.value > 0
    requires var f := LatestFilter(sensorId, b); f.BySensor? ==> f.id.Num?
    ensures var n := LimitOf(limit, LatestDefaultLimit, LatestCap, b).value;
      var f := LatestFilter(sensorId, b);
      var r := ListOutcome(docs, f, Some(n), findNewest, true);
      && r.Ok?
      && IsNewestWindow(Matching(docs, f), n, r.value)
      && |r.value| <= LatestCap
      && (forall i :: 0 <= i < |r.value| ==> r.value[i] in docs && (f.BySensor? ==> r.value[i].sensorId == f.id.n))
  {
    var n := LimitOf(limit, LatestDefaultLimit, LatestCap, b).value;
    var f := LatestFilter(sensorId, b);
    var matched := Matching(docs, f);
    var w := findNewest(matched, Some(n));
    assert IsNewestWindow(matched, n, w);
    forall i | 0 <= i < |w| ensures w[i] in docs && (f.BySensor? ==> w[i].sensorId == f.id.n) {
      assert w[i] in multiset(w);
      assert w[i] in multiset(matched);
    }
  }

  /**
   * A `limit` of 0 passes the cap, and the store reads 0 as "no limit": every
   * matching reading is listed, however many there are.
   */
  lemma ZeroLimitListsEverything(sensorId: Option<string>, b: Builtins, docs: seq<Reading>,
                                 findNewest: (seq<Reading>, Option<int>) -> seq<Reading>)
    requires FindNewestSound(findNewest)
    requires b.parseInt("0") == Some(0)
    requires var f := LatestFilter(sensorId, b); f.BySensor? ==> f.id.Num?
    ensures var f := LatestFilter(sensorId, b);
      var r := ListOutcome(docs, f, LimitOf(Some("0"), LatestDefaultLimit, LatestCap, b), findNewest, true);
      r.Ok? && |r.value| == |Matching(docs, f)|
  {
    var f := LatestFilter(sensorId, b);
    assert LimitOf(Some("0"), LatestDefaultLimit, LatestCap, b) == Some(0);
    assert IsNewestWindow(Matching(docs, f), 0, findNewest(Matching(docs, f), Some(0)));
  }

  /** The comment every new event stream starts with. */
  const ConnectedComment: string := ": connected\n\n"

  /**
   * `GET /stream`: the response (a new sink) receives the connected comment and is
   * registered for every later broadcast.
   */
  method Stream(s: Broadcaster.SinkId, hub: Broadcaster.Hub)
    requires hub.Valid() && s !in hub.written
    modifies hub
    ensures hub.Valid()
    ensures hub.clients == old(hub.clients) + {s}
    ensures hub.written == old(hub.written)[s := [ConnectedComment]]
  {
    hub.written := hub.written[s := [ConnectedComment]];
    hub.AddClient(s);
  }
}
