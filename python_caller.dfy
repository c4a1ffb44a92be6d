/**
 * utils/pythonCaller.js: `computeStatus(historyValues, currentValue)` hands the
 * history and the current value to the z-score script and interprets what comes back.
 * The subprocess is not modelled: the caller builds a request, and `spawn` answers it
 * with the record the child-process library returns.
 */
module PythonCaller {
  import opened Wrappers
  import opened JsValues
  import ZScore

  /** The time bound handed to the child process, in milliseconds. */
  const TimeoutMs: nat := 5000

  /** What the scorer is started with: the JSON text on its stdin and the time bound. */
  datatype Request = Request(input: string, timeoutMs: nat)

  /**
   * The library's answer: it throws (`Threw`), or returns a record whose `error` is set
   * when the process could not be run or was killed by the timeout, with the exit
   * status (None when killed by a signal) and the captured stdout (None when absent).
   */
  datatype SpawnResult =
    | Threw(reason: string)
    | Finished(error: Option<string>, status: Option<int>, stdout: Option<string>)

  /** How the returned promise settles. */
  datatype Settled = Resolved(value: JVal) | Rejected(reason: string)

  /** One call: the request made, if any, and how the promise settled. */
  datatype Call = Call(request: Option<Request>, settled: Settled)

  /** `{status: 'Normal', zscore: null}`: the fallback result. */
  const NormalNoScore: JVal := Obj(map["status" := Str("Normal"), "zscore" := Null])

  /** The guard before any spawn: `currentValue === null || Number.isNaN(Number(currentValue))`, with `undefined` replaced by the default `null`. */
  predicate Rejectable(currentValue: JVal, b: Builtins) {
    Nullish(currentValue) || ToNumber(currentValue, b).NaN?
  }

  /** How the captured stdout is read once the process has run. */
  function Interpret(stdout: Option<string>, b: Builtins): (v: JVal)
    ensures (stdout.None? || Trim(stdout.value) == []) ==> v == NormalNoScore
    ensures stdout.Some? && Trim(stdout.value) != [] && b.parseJson(Trim(stdout.value)).None? ==> v == NormalNoScore
    ensures stdout.Some? && Trim(stdout.value) != [] && b.parseJson(Trim(stdout.value)).Some? ==>
      v == b.parseJson(Trim(stdout.value)).value
  {
    var text := Trim(if stdout.Some? then stdout.value else "");
    if text == [] then NormalNoScore
    else match b.parseJson(text)
      case None => NormalNoScore
      case Some(parsed) => parsed
  }

  /**
   * `computeStatus(historyValues, currentValue)`. The value is checked before any
   * process is started; a spawn that throws or reports an error rejects; otherwise
   * the exit status plays no part and the result is read from stdout alone.
   */
  function ComputeStatus(history: seq<real>, currentValue: JVal, spawn: Request -> SpawnResult, b: Builtins): (c: Call)
    ensures c.request.None? <==> Rejectable(currentValue, b)
    ensures c.request.None? ==> c.settled.Rejected?
    ensures c.request.Some? ==>
      && !Rejectable(currentValue, b)
      && c.request.value == Request(b.stringify(ZScore.CallerPayload(history, ToNumber(currentValue, b).n)), TimeoutMs)
      && (c.settled.Rejected? <==> (spawn(c.request.value).Threw? || spawn(c.request.value).error.Some?))
      && (spawn(c.request.value).Finished? && spawn(c.request.value).error.None? ==>
            c.settled == Resolved(Interpret(spawn(c.request.value).stdout, b)))
  {
    if Rejectable(currentValue, b) then Call(None, Rejected("Invalid currentValue"))
    else
      var request := Request(b.stringify(ZScore.CallerPayload(history, ToNumber(currentValue, b).n)), TimeoutMs);
      match spawn(request)
      case Threw(reason) => Call(Some(request), Rejected(reason))
      case Finished(error, _, stdout) =>
        if error.Some? then Call(Some(request), Rejected(error.value))
        else Call(Some(request), Resolved(Interpret(stdout, b)))
  }

  /**
   * The request is read by the script as exactly the history and value sent: when
   * Python's parser reads the caller's JSON text back as the payload, the script
   * decides by the z-score rule over that history.
   */
  lemma ScriptSeesRequest(history: seq<real>, currentValue: JVal, spawn: Request -> SpawnResult,
                          b: Builtins, py: ZScore.PyBuiltins)
    requires !Rejectable(currentValue, b)
    requires var p := ZScore.CallerPayload(history, ToNumber(currentValue, b).n);
      b.stringify(p) != "" && py.loads(b.stringify(p)) == Some(p)
    ensures var c := ComputeStatus(history, currentValue, spawn, b);
      var v := ToNumber(currentValue, b).n;
      && c.request.Some?
      && ZScore.Main(c.request.value.input, py)
         == if |history| < 2 then ZScore.NormalNoScore else ZScore.Decide(history, ZScore.Fin(v))
  {
    var v := ToNumber(currentValue, b).n;
    ZScore.MainOnCallerPayload(b.stringify(ZScore.CallerPayload(history, v)), py, history, v);
  }
}
