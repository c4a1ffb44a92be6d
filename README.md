# Smart sensing backend: a verified model of the ingestion path

This project is a Dafny model of the core of the Smart Sensing with Edge Computing backend. That system receives temperature readings from STM32/BMP280 sensor nodes over a serial or Bluetooth line, or over HTTP. It normalises each reading and scores it against the sensor's recent history with a z-score script. It stores the reading in MongoDB and pushes it to Server-Sent-Events subscribers. The model covers that path from end to end, and proves properties of each step.

One module per source file:

| module | file | source |
|---|---|---|
| `Wrappers` | wrappers.dfy | `Option` and `Result` |
| `JsValues` | js_values.dfy | JavaScript values, `??`, truthiness, `Number(...)`, `trim`/`split`/`join`; the engine's parsers are fields of a `Builtins` record |
| `SensorModel` | sensor_model.dfy | models/Sensor.js: the schema, its casting and defaults, and the collection as a class holding the saved readings |
| `ZScore` | zscore.dfy | python/zscore.py |
| `PythonCaller` | python_caller.dfy | utils/pythonCaller.js |
| `Broadcaster` | broadcaster.dfy | sse/broadcaster.js: class `Hub` |
| `SensorController` | sensor_controller.dfy | controllers/sensorController.js |
| `BluetoothReader` | bluetooth_reader.dfy | utils/bluetoothReader.js |
| `SerialReader` | serial_reader.dfy | serial/reader.js, the reader server.js starts |
| `SensorRoutes` | sensor_routes.dfy | routes/sensorRoutes.js |
| `Firmware` | firmware.dfy | mainCode.c |

Outside collaborators are parameters. The store's query is an abstract function constrained by a soundness predicate. The scorer process is the record the child-process library returns. The event-stream sinks have a write-outcome oracle. Register reads on the firmware side are byte parameters. Numbers are reals: `Num(r)` is a finite number and `NaN` is NaN.

Behaviours of the code that a reader might not expect, each modelled as written:

- Only utils/bluetoothReader.js reconnects after a failure. serial/reader.js, the reader server.js actually starts, opens its port once and never reopens it (`SerialReader.NoRecovery`).
- serial/reader.js forwards a comma line whatever its fields hold. A NaN value is then refused by the pipeline's check, and a NaN id fails at the store query (`SerialReader.NonNumericIdFailsAtQuery`).
- The controller keeps an unparsable time as an Invalid Date, so the save fails (`SensorController.UnparsableTimeFailsAtSave`). Only the HTTP route falls back to the current time.
- An absent value passes the controller's check and is refused only by the schema at save time (`SensorController.AbsentValueFailsAtSave`).
- A `;` pair is split at every `:` or `=`, and the pieces after the first are re-joined with `:` (`BluetoothReader.SplitPairAtFirstSeparator`).
- The HTTP POST route normalises on its own, with fewer synonym keys, and trusts the client's status without scoring (`SensorRoutes.PostOutcome`).

## Model

| member | source | states |
|---|---|---|
| JsValues.ChainPicksFirstPresent | controllers/sensorController.js:11-14 | a `??` chain yields the value of the first key that is neither undefined nor null |
| JsValues.ChainFallsToLast | controllers/sensorController.js:11-14 | when all keys but the last are nullish, the chain yields the last key's value, null included |
| JsValues.Trim | utils/bluetoothReader.js:45 | the trimmed string has no white space at either end; it is empty exactly when the string is all white space; it is never longer |
| JsValues.TrimIsInfix | utils/bluetoothReader.js:45 | the trimmed string is the infix of the string that has only white space before it and only white space after it |
| JsValues.NonEmptyOnly | utils/bluetoothReader.js:62 | every part kept is non-empty and comes from the input; every non-empty part is kept |
| JsValues.NonEmptyOnlyAppend | utils/bluetoothReader.js:62 | the filter distributes over concatenation and keeps a single part exactly when it is non-empty, so it keeps the non-empty parts in order, repetitions included |
| JsValues.Split | utils/bluetoothReader.js:53 | a split has at least one part and no part holds a separator |
| JsValues.SplitsIffSep | serial/reader.js:33-34 | a split has two parts or more exactly when the string holds a separator |
| JsValues.SplitJoin | utils/bluetoothReader.js:62 | splitting separator-free parts joined with the separator gives the parts back |
| JsValues.JoinSplit | utils/bluetoothReader.js:66-68 | splitting on a class of separators and re-joining with one of them rewrites every separator to that one |
| SensorModel.Validate | models/Sensor.js:5-13 | sensorId and value are required numbers (null, undefined and '' are missing; NaN is refused); status defaults to Normal, location to '', time to now, zscore to null; raw is kept as given; an Invalid Date is refused; a document is valid exactly when every field casts |
| SensorModel.SaveOutcome | controllers/sensorController.js:71 | a save succeeds exactly when the document validates and the store accepts it; a schema failure is reported as such |
| SensorModel.OfSensor | controllers/sensorController.js:41 | the readings matched by `{sensorId: id}` all carry that id and come from the store, and every stored reading with that id is matched |
| SensorModel.OfSensorAppend | controllers/sensorController.js:41 | the selection distributes over concatenation and keeps a single reading exactly when it has the id, so it keeps store order |
| SensorModel.FindOutcome | controllers/sensorController.js:41-45 | a NaN id fails the filter cast before the store is asked; the query succeeds exactly when the id is a number and the store is reachable |
| SensorModel.Matching | routes/sensorRoutes.js:54 | `{}` matches every reading; `{sensorId: id}` matches exactly the stored readings of that sensor |
| SensorModel.ListOutcome | routes/sensorRoutes.js:54-60 | a listing fails on a NaN filter or an unreachable store and succeeds otherwise |
| SensorModel.Collection.Find | controllers/sensorController.js:41-45 | the history query's result; with a sound store it is the newest readings of the sensor, newest first, at most the limit |
| SensorModel.Collection.List | routes/sensorRoutes.js:56-60 | the listing's result; with a sound store and a limit of zero or more it is the newest matching readings, newest first |
| SensorModel.Collection.Save | controllers/sensorController.js:71 | the collection grows by exactly the saved reading when the save succeeds and is unchanged otherwise |
| ZScore.Floats | python/zscore.py:20-25 | the filtered history is never longer than the input, and loses nothing exactly when every entry converts to float |
| ZScore.FloatsAppend | python/zscore.py:20-25 | the conversion distributes over concatenation, so the history holds the floats of the convertible entries in input order |
| ZScore.FloatsSingle | python/zscore.py:21-25 | one entry gives its float when `float(x)` succeeds and nothing when it raises |
| ZScore.CollectFloats | python/zscore.py:20-25 | the append loop builds exactly the filtered history |
| ZScore.FloatsOfNumbers | python/zscore.py:20-25 | a list of numbers converts one for one |
| ZScore.SumSquaresZero | python/zscore.py:33 | a sum of squared deviations is never negative and is zero exactly when every sample equals the centre |
| ZScore.VarianceNonNegative | python/zscore.py:33-34 | the sample variance is never negative, so the square root is always taken |
| ZScore.VarianceZeroIffConstant | python/zscore.py:33-38 | zero spread happens exactly when all samples are equal |
| ZScore.ThreeSigmaRule | python/zscore.py:40-44 | for std = sqrt(var) > 0, \|deviation/std\| >= 3 holds exactly when deviation² >= 9·var |
| ZScore.Decide | python/zscore.py:32-47 | with at least two samples: no score exactly when the variance is zero; the score is (value − mean) over the sample variance; Outlier exactly when the three-sigma test holds |
| ZScore.HistoryOf | python/zscore.py:13 | the history is the payload's entry when present and truthy, and an empty list otherwise |
| ZScore.ValueOf | python/zscore.py:14 | the value is null exactly when the entry is missing or null |
| ZScore.Main | python/zscore.py:6-53 | the status is Normal or Outlier; without a score it is Normal; Outlier exactly when a score with positive variance passes the three-sigma test; empty input, a parse failure, a non-dict payload, a null or missing value, a history that is not iterable and fewer than two usable samples each give Normal with no score; past those exits the answer is the classification of the converted history against the value |
| ZScore.MainOnCallerPayload | python/zscore.py:12-47 | on the payload the caller sends, the script gives Normal with no score below two samples, and the z-score decision otherwise |
| ZScore.ConstantHistoryIsNormal | python/zscore.py:36-38 | a history of equal samples never yields a score or an outlier |
| PythonCaller.Interpret | utils/pythonCaller.js:37-53 | empty, blank or unparsable stdout gives `{status: 'Normal', zscore: null}`; parsable stdout is returned as parsed, unchecked |
| PythonCaller.ComputeStatus | utils/pythonCaller.js:12-55 | no process is started exactly when the value is null, undefined or NaN under `Number`, and then the call rejects; otherwise the request is the JSON of `{history, value: Number(value)}` with a 5000 ms bound; the call rejects exactly when the spawn throws or reports an error; the exit status plays no part |
| PythonCaller.ScriptSeesRequest | utils/pythonCaller.js:18-26 | when the script reads the request back as the payload, its verdict is the z-score decision over the history sent |
| Broadcaster.Frame | sse/broadcaster.js:14 | a frame is the JSON text plus the `data: ` prefix and the closing blank line |
| Broadcaster.FrameData | sse/broadcaster.js:14 | reading a frame back gives a JSON text that frames to the same payload |
| Broadcaster.FrameRoundTrip | sse/broadcaster.js:14 | a frame carries exactly the JSON text it was built from |
| Broadcaster.FrameIsOneEvent | sse/broadcaster.js:14 | a JSON text with no line break gives a frame whose only line breaks are its last two characters |
| Broadcaster.Survivors | sse/broadcaster.js:15-21 | after a broadcast, a sink stays registered exactly when its write succeeded |
| Broadcaster.Delivered | sse/broadcaster.js:15-21 | each stream of a registered sink whose write succeeds gains the payload once; every other stream is unchanged |
| Broadcaster.Hub.constructor | sse/broadcaster.js:3 | the client set starts empty |
| Broadcaster.Hub.AddClient | sse/broadcaster.js:5-6 | the sink joins the set; a new stream starts empty, so it never receives earlier events; adding a present sink changes nothing |
| Broadcaster.Hub.OnClose | sse/broadcaster.js:8-10 | a close removes exactly that sink |
| Broadcaster.Hub.Broadcast | sse/broadcaster.js:13-23 | one payload, `data: ` + JSON of `{event, data}` + blank line; every sink registered at the start gets it unless its write fails; failing sinks are removed, no sink is added, and no failure escapes |
| SensorController.NormalizeIncoming | controllers/sensorController.js:10-22 | normalising throws exactly when the input is null or undefined; raw is the input unchanged; the location is truthy or '' |
| SensorController.SensorIdFirstPresent | controllers/sensorController.js:11-16 | sensorId is `Number` of the first present key among sensorId, 'sensor id', sensor_id, id, devId |
| SensorController.SensorIdWhenNoneGiven | controllers/sensorController.js:11-16 | with no id key present, sensorId is undefined, or 0 when devId holds null |
| SensorController.ValueFirstPresent | controllers/sensorController.js:12-17 | value is `Number` of the first present key among value, val, temperature, temp |
| SensorController.ValueWhenNoneGiven | controllers/sensorController.js:12-17 | with no value key present, value is undefined, or 0 when temp holds null |
| SensorController.LocationFirstPresent | controllers/sensorController.js:13-18 | the location is the first present location key's value when truthy, and '' otherwise |
| SensorController.TimeFirstPresent | controllers/sensorController.js:14-19 | the time is `new Date(t)` for a truthy first present t, with no fallback when it does not parse, and now otherwise |
| SensorController.Checked | controllers/sensorController.js:36-38 | a null or undefined input throws; otherwise the check refuses exactly an input whose id chain is undefined or whose value chain is present and NaN under `Number`; an accepted input is the normalised one, with an id and a non-NaN value |
| SensorController.NumbersOnly | controllers/sensorController.js:48 | a number is in the history exactly when it is a non-NaN entry of the input |
| SensorController.NumbersOnlyAppend | controllers/sensorController.js:48 | the filter distributes over concatenation, keeps a number and drops NaN, so it keeps the numbers in order |
| SensorController.HistoryKeepsEveryValue | controllers/sensorController.js:48 | stored values are never dropped from the history, and their order is kept |
| SensorController.FailOpen | controllers/sensorController.js:51-58 | a rejected call, or a result without a truthy status, gives Normal with a null zscore; otherwise the result's status is used, with its zscore or null; the status is never falsy and the zscore never undefined |
| SensorController.Ingest | controllers/sensorController.js:32-81 | a failed check is the outcome, before anything else; after a passed check, processing succeeds exactly when the id is a number, the store is reachable and accepts, and the scored document validates; the saved reading carries the checked id, value, time, string location and the raw input |
| SensorController.ProcessIncoming | controllers/sensorController.js:32-81 | the store gains exactly the saved reading when processing succeeds and is unchanged otherwise; a saved reading is broadcast exactly once as a `reading` event; a failure leaves the sinks untouched |
| SensorController.RejectedBeforeStore | controllers/sensorController.js:36-38 | a missing sensorId or a NaN value is refused before the store is read |
| SensorController.HistoryIsRecentWindow | controllers/sensorController.js:41-48 | the history is that sensor's readings stored before this one, newest first, at most N of them (50 by default) |
| SensorController.NaNSensorIdFailsQuery | controllers/sensorController.js:41-45 | a NaN sensorId passes the check and fails at the query, before scoring or saving |
| SensorController.AbsentValueFailsAtSave | controllers/sensorController.js:36-71 | an absent value passes the check; the scorer refuses it, and the save then fails on the required value |
| SensorController.UnparsableTimeFailsAtSave | controllers/sensorController.js:19 | an unparsable time is not replaced, so the save fails and nothing is stored |
| SensorController.ScorerFailureSavesNormal | controllers/sensorController.js:51-58 | when the scorer always fails, the saved reading is Normal with no zscore |
| SensorController.FailOpenKeepsReportedStatus | controllers/sensorController.js:54 | a scorer answer with a non-empty status is taken as it is |
| SensorController.ScoreIsScriptStatus | utils/pythonCaller.js:18-50 | with a scorer that runs the script, the verdict's status is the script's answer to the request it was sent |
| SensorController.ScoreIsZScoreVerdict | controllers/sensorController.js:51-58 | with a scorer that runs the script, the verdict is the z-score decision over the history |
| SensorController.StatusIsZScoreVerdict | controllers/sensorController.js:41-71 | end to end, the saved status is the z-score decision on the value against the sensor's earlier stored values |
| BluetoothReader.BuildPairFields | utils/bluetoothReader.js:64-70 | the key-by-key loop builds exactly the pair fields |
| BluetoothReader.PairFieldsAbsentKey | utils/bluetoothReader.js:64-70 | a key no segment gives is absent |
| BluetoothReader.PairFieldsLastWins | utils/bluetoothReader.js:65-69 | a key takes the value of the last segment that gives it |
| BluetoothReader.SplitPairAtFirstSeparator | utils/bluetoothReader.js:66-69 | a segment `k=v` gives the trimmed key k and the trimmed rest, with further separators turned into `:` |
| BluetoothReader.DecodeLine | utils/bluetoothReader.js:45-52 | a blank line is ignored; JSON is used exactly when the trimmed line parses, and gives the parsed value |
| BluetoothReader.DecodeDelimited | utils/bluetoothReader.js:53-84 | the comma rule applies exactly when the first two trimmed comma fields are numbers, and gives the comma record of those fields |
| BluetoothReader.DecodePairsOrTokens | utils/bluetoothReader.js:62-84 | pairs exactly when there are two or more non-empty segments, giving their pair fields; else tokens exactly when the first two tokens are numbers, giving an object of just sensorId and value; else dropped |
| BluetoothReader.DecodeLineRules | utils/bluetoothReader.js:45-84 | for a non-blank line JSON refuses, each rule applies exactly when the rules before it refused and its own test passes, and builds its object from what it tested; the line is dropped exactly when no rule applies |
| BluetoothReader.ForwardsNumbers | utils/bluetoothReader.js:53-81 | the comma and token rules forward a numeric sensorId and a numeric value |
| BluetoothReader.Decode | utils/bluetoothReader.js:45-84 | the handler's decoding, loop included, is the decoding function |
| BluetoothReader.CommaLine | utils/bluetoothReader.js:53-60 | a non-JSON comma line with numeric first two fields gives the comma record of its fields |
| BluetoothReader.EmptyCommaFields | utils/bluetoothReader.js:53-60 | the line "," is read by the comma rule as sensor 0 and value 0, since `Number('')` is 0 |
| BluetoothReader.PairsLine | utils/bluetoothReader.js:62-70 | a comma-free non-JSON line of two or more `;` segments gives the pair fields of its segments |
| BluetoothReader.TokensLine | utils/bluetoothReader.js:72-79 | a non-JSON line of two numeric words with one space between them, such as "1 25.4", gives sensorId and value from the two words |
| BluetoothReader.SingleWordDropped | utils/bluetoothReader.js:72-81 | a single non-JSON word matches no rule and is dropped |
| BluetoothReader.OnData | utils/bluetoothReader.js:44-94 | an ignored or dropped line touches neither the store nor the sinks; a decoded line runs the pipeline once; on success the store gains exactly the saved reading, the sinks whose write fails are dropped and every other sink receives the one `reading` frame of that reading, and a pipeline failure stays inside the handler |
| BluetoothReader.Start | utils/bluetoothReader.js:12-42 | without a path the reader is disabled; otherwise an open is under way |
| BluetoothReader.Step | utils/bluetoothReader.js:31-103 | a failed open or a close schedules a reopen; a fired timer starts an open; an error changes nothing; a disabled reader never changes |
| BluetoothReader.DisabledForever | utils/bluetoothReader.js:13-16 | a disabled reader stays disabled whatever happens |
| BluetoothReader.RetriesNeverStop | utils/bluetoothReader.js:33-35 | after any number of failed opens, an open is under way again |
| BluetoothReader.ReopensAfterClose | utils/bluetoothReader.js:96-99 | after a close the reader reopens |
| SerialReader.CsvRecord | serial/reader.js:35-40 | the comma object has exactly sensorId, value, time and location, with `Number` of the first two fields unchecked |
| SerialReader.DecodeLine | serial/reader.js:25-45 | a blank line is ignored; a line is dropped exactly when it is neither JSON nor holds a comma; otherwise it is the parsed JSON or the comma record |
| SerialReader.AgreesWithBluetoothOnJsonAndNumbers | serial/reader.js:30-40 | where the Bluetooth reader reads JSON or numeric comma fields, this reader gives the same object |
| SerialReader.NonNumericIdFailsAtQuery | serial/reader.js:33-47 | a comma line with a non-numeric id is forwarded and then lost at the store query |
| SerialReader.CsvIdIsNaN | serial/reader.js:36-37 | such a comma record passes the pipeline's check with a NaN id |
| SerialReader.PairsLineDropped | serial/reader.js:41-44 | a `;` pairs line, which the Bluetooth reader forwards, is dropped here |
| SerialReader.OnData | serial/reader.js:24-52 | an ignored or dropped line touches neither the store nor the sinks; a decoded line runs the pipeline once; on success the store gains exactly the saved reading, the sinks whose write fails are dropped and every other sink receives the one `reading` frame of that reading |
| SerialReader.Start | serial/reader.js:5-22 | without a path the reader is disabled; otherwise one open is under way |
| SerialReader.Step | serial/reader.js:19-56 | no event ever starts an open; a failed open leaves the port closed; an error changes nothing |
| SerialReader.ClosedStaysClosed | serial/reader.js:19-22 | a closed port with no open under way stays closed forever |
| SerialReader.NoRecovery | serial/reader.js:19-22 | after a failed first open, or a close, the reader never reads again |
| SensorRoutes.NormalizePost | routes/sensorRoutes.js:13-22 | a falsy body is `{}`; the id, value and time chains of the route; the location is the chain's value when present and '' otherwise; the time is always a valid time, now when absent or unparsable |
| SensorRoutes.PostOutcome | routes/sensorRoutes.js:11-47 | 400 exactly when the id is undefined or the value NaN; otherwise 201 exactly when the document validates and the store accepts it; a created reading has the route's time, the client's status or Normal, and no zscore; a 500 comes only from a non-numeric id, an uncastable status or location, or the store |
| SensorRoutes.PostSaveFailures | routes/sensorRoutes.js:28-45 | a document with a number or NaN id, a number value, a valid time and no zscore fails to save only on the id, the status, the location or the store |
| SensorRoutes.Post | routes/sensorRoutes.js:11-47 | the store gains the reading and the sinks get one `reading` event exactly when it is created; otherwise neither changes |
| SensorRoutes.MissingIdIsRefused | routes/sensorRoutes.js:15-26 | the id is undefined exactly when every id key is nullish and `id` itself is undefined |
| SensorRoutes.NullIdIsSensorZero | routes/sensorRoutes.js:15-29 | a body whose only id key is `id: null` is stored as sensor 0 |
| SensorRoutes.UnparsableTimeFallsBackToNow | routes/sensorRoutes.js:18-22 | an unparsable time is replaced by now, and the reading can still be stored |
| SensorRoutes.LimitOf | routes/sensorRoutes.js:52 | parseInt of the parameter or of the default; NaN stays NaN; a number never exceeds the cap |
| SensorRoutes.LatestFilter | routes/sensorRoutes.js:54 | `/latest` filters by `Number(sensorId)` exactly when the parameter is non-empty |
| SensorRoutes.Latest | routes/sensorRoutes.js:50-65 | the answer is the listing under the `/latest` filter and a limit of at most 1000 |
| SensorRoutes.History | routes/sensorRoutes.js:68-81 | the answer is the listing of `Number(param)`'s readings under a limit of at most 5000 |
| SensorRoutes.LatestIsCappedNewest | routes/sensorRoutes.js:52-60 | with a positive limit the answer is the newest matching readings, at most 1000, all of the requested sensor |
| SensorRoutes.ZeroLimitListsEverything | routes/sensorRoutes.js:52-58 | `limit=0` passes the cap and lists every matching reading |
| SensorRoutes.Stream | routes/sensorRoutes.js:84-97 | a new stream gets the connected comment and is registered for later broadcasts |
| Firmware.RawTemperature | mainCode.c:164-170 | the or of the shifted fields equals msb·4096 + lsb·16 + xlsb div 16, within [0, 2²⁰) |
| Firmware.RawTemperatureFields | mainCode.c:166-168 | the raw value gives back msb, lsb and the high nibble of xlsb |
| Firmware.Word | mainCode.c:159 | `lo \| (hi << 8)` equals lo + 256·hi, a `uint16_t` |
| Firmware.AsInt16 | mainCode.c:160-161 | storing a word into `int16_t` gives the one value in [−32768, 32768) congruent to it modulo 65536 |
| Firmware.ReadCalibration | mainCode.c:157-162 | T1 is the unsigned word of 0x88/0x89; T2 and T3 are the signed words of 0x8A/0x8B and 0x8C/0x8D |
| Firmware.ProgressStepsAreTens | mainCode.c:88-92 | the progress steps among the first n are 0, 10, 20, …, one for every started ten |
| Firmware.TwelveProgressMessages | mainCode.c:76-92 | a session sends 12 progress messages, the last at 110 |
| Firmware.Session | mainCode.c:72-95 | the loop runs 120 times; count is 120; progress is sent at the steps i % 10 == 0; each step's raw values come from that step's bytes |
| Firmware.Boot | mainCode.c:33-101 | the firmware halts exactly when a chip ID is not 0x58; otherwise it holds T1, T2 and T3 of each sensor's calibration registers and the results of one full session |

## Left out

- I2C, UART and SysTick register handshakes (mainCode.c:105-154 and 182-191) are memory-mapped busy-waits, and the reset and configuration writes (mainCode.c:58-63) have no modelled effect. Register bytes are parameters instead. The UART messages are modelled only as the progress steps.
- Floating-point arithmetic is not modelled. This covers `compensate_T` and the session average (mainCode.c:84, 97, 172-179) and JavaScript's infinities and −0. Python's float overflow is out too. Numbers are reals plus NaN.
- The built-in parsers and printers are uninterpreted fields of `Builtins` and `PyBuiltins`: JSON.parse, JSON.stringify, `Number(string)`, `String(v)`, `new Date`, parseInt, json.loads and `float(str)`. Lemmas state the facts they need as preconditions.
- The subprocess itself is not modelled, nor the choice of interpreter path (utils/pythonCaller.js:5-6). Only the result record of the call is.
- Timers and concurrency are not modelled. Reconnect delays are a count of pending timers. Overlapping asynchronous `processIncoming` calls are not interleaved: each call runs against one store state.
- Mongoose and MongoDB internals are not modelled: `_id`, `__v`, the timestamps, `lean()`, and the tie order among readings with equal times. What a negative or NaN limit returns is also out: the store's answer is constrained only for limits of zero or more.
- SensorModel.Validate: null counts as missing for defaults, like undefined. No caller passes null except for zscore, whose default is null anyway.
- SensorModel.CastString: String() of booleans and numbers is the uninterpreted `stringOf`. Arrays and plain objects are refused for string fields.
- SensorController.HistoryCount: `options.historyCount` is modelled only as absent or a natural number. A negative or non-numeric option is not modelled.
- SensorController.ProcessIncoming: the try/catch around the broadcast (controllers/sensorController.js:74-78) is not modelled. In the model a broadcast cannot throw, because each write failure is caught inside it.
- The serial port's configuration (baud rate, the constructor's error callback) and logging are left out; they have no effect on the modelled state.
- server.js and config/db.js are not part of this model: they are process wiring and a database connection wrapper.
