/**
 * models/Sensor.js: the reading schema (field types, required fields, defaults) and
 * the collection the schema is stored in. Saving a document first casts and
 * validates it against the schema; only a valid document can reach the store.
 */
module SensorModel {
  import opened Wrappers
  import opened JsValues

  /** A stored reading, with every field already cast to its schema type. */
  datatype Reading = Reading(
    sensorId: real,
    value: real,
    status: string,
    time: int,          // milliseconds of a valid Date
    location: string,
    raw: JVal,          // Mixed: anything
    zscore: Option<real>)

  /** The fields handed to `new Sensor({...})`, before casting; `time` None means "not given". */
  datatype DocInput = DocInput(
    sensorId: JVal,
    value: JVal,
    status: JVal,
    time: Option<Date>,
    location: JVal,
    raw: JVal,
    zscore: JVal)

  datatype Field = SensorIdField | ValueField | StatusField | TimeField | LocationField | ZscoreField

  datatype SchemaError = Required(field: Field) | CastFailed(field: Field)

  /** Outcome of casting one field: not given, cast, or refused. */
  datatype Cast<T> = Missing | Cast(v: T) | Uncastable

  const DefaultStatus: string := "Normal"
  const DefaultLocation: string := ""

  /** Casting to a Number field: NaN, arrays and objects are refused; "" counts as not given. */
  function CastNumber(v: JVal, b: Builtins): Cast<real> {
    match v
    case Undef => Missing
    case Null => Missing
    case Bool(t) => Cast(if t then 1.0 else 0.0)
    case Num(r) => Cast(r)
    case NaN => Uncastable
    case Str(s) =>
      if s == "" then Missing
      else (match b.numberOfString(s) case Num(r) => Cast(r) case NaN => Uncastable)
    case Arr(_) => Uncastable
    case Obj(_) => Uncastable
  }

  /** Casting to a String field: scalars go through String(v); arrays and plain objects are refused. */
  function CastString(v: JVal, b: Builtins): Cast<string> {
    match v
    case Undef => Missing
    case Null => Missing
    case Str(s) => Cast(s)
    case Arr(_) => Uncastable
    case Obj(_) => Uncastable
    case _ => Cast(b.stringOf(v))
  }

  function RequiredNumber(v: JVal, f: Field, b: Builtins): Result<real, SchemaError> {
    match CastNumber(v, b)
    case Missing => Err(Required(f))
    case Uncastable => Err(CastFailed(f))
    case Cast(r) => Ok(r)
  }

  function OptionalNumber(v: JVal, f: Field, b: Builtins): Result<Option<real>, SchemaError> {
    match CastNumber(v, b)
    case Missing => Ok(None)
    case Uncastable => Err(CastFailed(f))
    case Cast(r) => Ok(Some(r))
  }

  function DefaultedString(v: JVal, f: Field, default: string, b: Builtins): Result<string, SchemaError> {
    match CastString(v, b)
    case Missing => Ok(default)
    case Uncastable => Err(CastFailed(f))
    case Cast(s) => Ok(s)
  }

  /** `time` defaults to the current time; an Invalid Date cannot be cast. */
  function DefaultedTime(t: Option<Date>, now: int): Result<int, SchemaError> {
    match t
    case None => Ok(now)
    case Some(At(ms)) => Ok(ms)
    case Some(InvalidDate) => Err(CastFailed(TimeField))
  }

  /**
   * Cast and validate a document against SensorSchema. The first failing field, in
   * schema order, is reported.
   */
  function Validate(d: DocInput, b: Builtins, now: int): (r: Result<Reading, SchemaError>)
    ensures Nullish(d.sensorId) ==> r == Err(Required(SensorIdField))
    ensures CastNumber(d.sensorId, b).Cast? && Nullish(d.value) ==> r == Err(Required(ValueField))
    ensures d.time == Some(InvalidDate) ==> r.Err?
    ensures r.Ok? <==>
      && CastNumber(d.sensorId, b).Cast?
      && CastNumber(d.value, b).Cast?
      && !CastString(d.status, b).Uncastable?
      && d.time != Some(InvalidDate)
      && !CastString(d.location, b).Uncastable?
      && !CastNumber(d.zscore, b).Uncastable?
    ensures r.Ok? ==>
      && CastNumber(d.sensorId, b) == Cast(r.value.sensorId)
      && CastNumber(d.value, b) == Cast(r.value.value)
      && r.value.raw == d.raw
      && (Nullish(d.status) ==> r.value.status == DefaultStatus)
      && (d.status.Str? ==> r.value.status == d.status.s)
      && (Nullish(d.location) ==> r.value.location == DefaultLocation)
      && (d.location.Str? ==> r.value.location == d.location.s)
      && (d.time.None? ==> r.value.time == now)
      && (d.time.Some? ==> d.time.value == At(r.value.time))
      && (Nullish(d.zscore) ==> r.value.zscore.None?)
      && (d.zscore.Num? ==> r.value.zscore == Some(d.zscore.n))
  {
    match RequiredNumber(d.sensorId, SensorIdField, b)
    case Err(e) => Err(e)
    case Ok(sensorId) =>
      match RequiredNumber(d.value, ValueField, b)
      case Err(e) => Err(e)
      case Ok(value) =>
        match DefaultedString(d.status, StatusField, DefaultStatus, b)
        case Err(e) => Err(e)
        case Ok(status) =>
          match DefaultedTime(d.time, now)
          case Err(e) => Err(e)
          case Ok(time) =>
            match DefaultedString(d.location, LocationField, DefaultLocation, b)
            case Err(e) => Err(e)
            case Ok(location) =>
              match OptionalNumber(d.zscore, ZscoreField, b)
              case Err(e) => Err(e)
              case Ok(zscore) => Ok(Reading(sensorId, value, status, time, location, d.raw, zscore))
  }

  /** The JSON form of a saved reading (the schema fields; the library's `_id`, `__v` and timestamps are not modelled). */
  function ToJson(r: Reading, b: Builtins): JVal {
    Obj(map[
      "sensorId" := Num(r.sensorId),
      "value" := Num(r.value),
      "status" := Str(r.status),
      "time" := Str(b.dateJson(r.time)),
      "location" := Str(r.location),
      "raw" := r.raw,
      "zscore" := if r.zscore.Some? then Num(r.zscore.value) else Null])
  }

  datatype SaveError = Invalid(cause: SchemaError) | StoreFailed
  datatype QueryError = FilterCastFailed | QueryFailed

  /** `doc.save()`: schema validation, then the store's own outcome `stored`. */
  function SaveOutcome(d: DocInput, b: Builtins, now: int, stored: bool): (r: Result<Reading, SaveError>)
    ensures r.Ok? <==> Validate(d, b, now).Ok? && stored
    ensures r.Ok? ==> Validate(d, b, now) == Ok(r.value)
    ensures r.Err? && Validate(d, b, now).Err? ==> r.error == Invalid(Validate(d, b, now).error)
  {
    match Validate(d, b, now)
    case Err(e) => Err(Invalid(e))
    case Ok(reading) => if stored then Ok(reading) else Err(StoreFailed)
  }

  /** The stored readings of one sensor, in store order. */
  function OfSensor(docs: seq<Reading>, id: real): (r: seq<Reading>)
    ensures forall i :: 0 <= i < |r| ==> r[i].sensorId == id && r[i] in docs
    ensures forall d :: d in docs && d.sensorId == id ==> d in r
    ensures |r| <= |docs|
  {
    if docs == [] then []
    else
      var rest := OfSensor(docs[1..], id);
      assert forall d :: d in docs[1..] ==> d in docs;
      assert forall d :: d in docs ==> d == docs[0] || d in docs[1..];
      if docs[0].sensorId == id then [docs[0]] + rest else rest
  }

  /**
   * The selection works reading by reading, keeping store order: on a concatenation
   * it is the concatenation of the two selections, and a single reading is kept
   * exactly when its sensorId is `id`.
   */
  lemma {:induction false} OfSensorAppend(a: seq<Reading>, c: seq<Reading>, id: real)
    ensures OfSensor(a + c, id) == OfSensor(a, id) + OfSensor(c, id)
    ensures forall d :: OfSensor([d], id) == if d.sensorId == id then [d] else []
    decreases |a|
  {
    if a == [] {
      assert a + c == c;
    } else {
      assert (a + c)[0] == a[0] && (a + c)[1..] == a[1..] + c;
      OfSensorAppend(a[1..], c, id);
    }
  }

  /**
   * What `.sort({ time: -1 }).limit(n)` returns from the readings a filter matched:
   * newest first, the `n` newest of them (all of them when n is 0, which the store
   * reads as "no limit"); readings with equal times may come in any order.
   */
  ghost predicate IsNewestWindow(matched: seq<Reading>, n: nat, w: seq<Reading>) {
    && multiset(w) <= multiset(matched)
    && (forall i, j :: 0 <= i < j < |w| ==> w[i].time >= w[j].time)
    && |w| == (if n == 0 || |matched| <= n then |matched| else n)
    && (|w| > 0 ==> forall d :: d in multiset(matched) - multiset(w) ==> d.time <= w[|w| - 1].time)
  }

  /** What `find({ sensorId: id }).sort({ time: -1 }).limit(n)` returns. */
  ghost predicate IsRecentWindow(docs: seq<Reading>, id: real, n: nat, w: seq<Reading>) {
    IsNewestWindow(OfSensor(docs, id), n, w)
  }

  /** The store's query keeps its promise for every state and every query. */
  ghost predicate FindRecentSound(findRecent: (seq<Reading>, real, nat) -> seq<Reading>) {
    forall docs, id, n :: IsRecentWindow(docs, id, n, findRecent(docs, id, n))
  }

  /**
   * The query's outcome. The filter value is cast against the schema first, so a NaN
   * sensor id fails the query before the store is asked; `reachable` is the store's
   * own answer (false when the database cannot be queried).
   */
  function FindOutcome(docs: seq<Reading>, id: JsNumber, n: nat,
                       findRecent: (seq<Reading>, real, nat) -> seq<Reading>, reachable: bool)
    : (r: Result<seq<Reading>, QueryError>)
    ensures id.NaN? ==> r == Err(FilterCastFailed)
    ensures r.Ok? <==> id.Num? && reachable
  {
    if id.NaN? then Err(FilterCastFailed)
    else if !reachable then Err(QueryFailed)
    else Ok(findRecent(docs, id.n, n))
  }

  /** A query filter: `{}` or `{ sensorId: id }`. */
  datatype Filter = All | BySensor(id: JsNumber)

  /** The readings a castable filter matches, in store order. */
  function Matching(docs: seq<Reading>, f: Filter): (r: seq<Reading>)
    requires f.BySensor? ==> f.id.Num?
    ensures forall i :: 0 <= i < |r| ==> r[i] in docs && (f.BySensor? ==> r[i].sensorId == f.id.n)
    ensures f.All? ==> r == docs
    ensures f.BySensor? ==> forall d :: d in docs && d.sensorId == f.id.n ==> d in r
  {
    if f.All? then docs else OfSensor(docs, f.id.n)
  }

  /**
   * A listing query's outcome: the filter is cast first (a NaN id fails), then the
   * store is asked with the limit as given; `findNewest` is the store's answer for the
   * matched readings and a limit that may be NaN (None), negative, zero or positive.
   */
  function ListOutcome(docs: seq<Reading>, f: Filter, limit: Option<int>,
                       findNewest: (seq<Reading>, Option<int>) -> seq<Reading>, reachable: bool)
    : (r: Result<seq<Reading>, QueryError>)
    ensures f.BySensor? && f.id.NaN? ==> r == Err(FilterCastFailed)
    ensures r.Ok? <==> (f.BySensor? ==> f.id.Num?) && reachable
  {
    if f.BySensor? && f.id.NaN? then Err(FilterCastFailed)
    else if !reachable then Err(QueryFailed)
    else Ok(findNewest(Matching(docs, f), limit))
  }

  /** The listing query keeps its promise for every non-negative limit. */
  ghost predicate FindNewestSound(findNewest: (seq<Reading>, Option<int>) -> seq<Reading>) {
    forall matched, n: nat :: IsNewestWindow(matched, n, findNewest(matched, Some(n)))
  }

  /** The readings collection: the documents saved so far, in the order they were saved. */
  class Collection {
    var docs: seq<Reading>

    constructor ()
      ensures docs == []
    {
      docs := [];
    }

    method Find(id: JsNumber, n: nat, findRecent: (seq<Reading>, real, nat) -> seq<Reading>, reachable: bool)
      returns (r: Result<seq<Reading>, QueryError>)
      ensures r == FindOutcome(docs, id, n, findRecent, reachable)
      ensures r.Ok? && FindRecentSound(findRecent) ==> IsRecentWindow(docs, id.n, n, r.value)
    {
      r := FindOutcome(docs, id, n, findRecent, reachable);
    }

    method List(f: Filter, limit: Option<int>, findNewest: (seq<Reading>, Option<int>) -> seq<Reading>, reachable: bool)
      returns (r: Result<seq<Reading>, QueryError>)
      ensures r == ListOutcome(docs, f, limit, findNewest, reachable)
      ensures r.Ok? && FindNewestSound(findNewest) && limit.Some? && limit.value >= 0 ==>
        IsNewestWindow(Matching(docs, f), limit.value, r.value)
    {
      r := ListOutcome(docs, f, limit, findNewest, reachable);
    }

    method Save(d: DocInput, b: Builtins, now: int, stored: bool) returns (r: Result<Reading, SaveError>)
      modifies this
      ensures r == SaveOutcome(d, b, now, stored)
      ensures docs == if r.Ok? then old(docs) + [r.value] else old(docs)
    {
      r := SaveOutcome(d, b, now, stored);
      if r.Ok? {
        docs := docs + [r.value];
      }
    }
  }
}
