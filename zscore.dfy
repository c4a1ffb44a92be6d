/**
 * python/zscore.py: reads `{history, value}` as JSON, keeps the history entries that
 * convert to float, and classifies `value` by its z-score against the history's
 * mean and sample standard deviation. Every failure prints "Normal" with no score.
 *
 * Floats are modelled as reals (plus NaN). A z-score is kept as the pair
 * (deviation, variance) it is computed from, standing for deviation / sqrt(variance),
 * so that no square root is needed: |z| >= 3 is deviation^2 >= 9 * variance
 * (lemma ThreeSigmaRule).
 */
module ZScore {
  import opened Wrappers
  import opened JsValues

  /** A Python float: a real number or nan. */
  datatype PyFloat = Fin(r: real) | FloatNaN

  /** The printed zscore: Z(d, v) stands for d / sqrt(v), with v > 0. */
  datatype Score = Z(deviation: real, variance: real) | ZNaN

  /** What the script prints: `{"status": ..., "zscore": ...}`, zscore None printing as null. */
  datatype Output = Output(status: string, zscore: Option<Score>)

  /** Python's own parsers: json.loads, float() on a string, and the key order of a parsed dict. */
  datatype PyBuiltins = PyBuiltins(
    loads: string -> Option<JVal>,
    parseFloat: string -> Option<PyFloat>,
    dictKeys: map<string, JVal> -> seq<string>)

  const Threshold: real := 3.0
  const NormalNoScore: Output := Output("Normal", None)

  /** Python truthiness of a parsed JSON value. */
  predicate PyTruthy(v: JVal) {
    match v
    case Undef => false
    case Null => false
    case Bool(t) => t
    case Num(r) => r != 0.0
    case NaN => true
    case Str(s) => s != ""
    case Arr(xs) => xs != []
    case Obj(m) => m != map[]
  }

  /** `for x in history`: lists yield their items, strings their characters, dicts their keys; anything else raises. */
  function Iterate(h: JVal, py: PyBuiltins): Option<seq<JVal>> {
    match h
    case Arr(xs) => Some(xs)
    case Str(s) => Some(seq(|s|, i requires 0 <= i < |s| => Str([s[i]])))
    case Obj(m) =>
      var keys := py.dictKeys(m);
      Some(seq(|keys|, i requires 0 <= i < |keys| => Str(keys[i])))
    case _ => None
  }

  /** `float(x)`; None when it raises. */
  function FloatOf(x: JVal, py: PyBuiltins): Option<PyFloat> {
    match x
    case Num(r) => Some(Fin(r))
    case NaN => Some(FloatNaN)
    case Bool(t) => Some(Fin(if t then 1.0 else 0.0))
    case Str(s) => py.parseFloat(s)
    case _ => None
  }

  /** The entries of `items` that convert to float, in order; nothing is lost exactly when every entry converts. */
  function Floats(items: seq<JVal>, py: PyBuiltins): (hist: seq<PyFloat>)
    ensures |hist| <= |items|
    ensures |hist| == |items| <==> forall i :: 0 <= i < |items| ==> FloatOf(items[i], py).Some?
    decreases |items|
  {
    if items == [] then []
    else
      var init := Floats(items[..|items| - 1], py);
      assert forall i :: 0 <= i < |items| - 1 ==> items[..|items| - 1][i] == items[i];
      match FloatOf(items[|items| - 1], py)
      case Some(f) => init + [f]
      case None => init
  }

  /**
   * The conversion works entry by entry, keeping order: on a concatenation it is the
   * concatenation of the two conversions, and a single entry yields its float when
   * `float(x)` succeeds and nothing when it raises.
   */
  lemma {:induction false} FloatsAppend(a: seq<JVal>, c: seq<JVal>, py: PyBuiltins)
    ensures Floats(a + c, py) == Floats(a, py) + Floats(c, py)
    decreases |c|
  {
    if c == [] {
      assert a + c == a;
    } else {
      var c' := c[..|c| - 1];
      assert (a + c)[..|a + c| - 1] == a + c' && (a + c)[|a + c| - 1] == c[|c| - 1];
      FloatsAppend(a, c', py);
    }
  }

  /** A single entry yields its float when `float(x)` succeeds and nothing when it raises. */
  lemma FloatsSingle(x: JVal, py: PyBuiltins)
    ensures Floats([x], py) == match FloatOf(x, py) case Some(f) => [f] case None => []
  {
    assert [x][..0] == [];
  }

  /** The script's conversion loop: try `float(x)` on each entry and append it, skipping entries that raise. */
  method CollectFloats(items: seq<JVal>, py: PyBuiltins) returns (hist: seq<PyFloat>)
    ensures hist == Floats(items, py)
  {
    hist := [];
    for i := 0 to |items|
      invariant hist == Floats(items[..i], py)
    {
      assert items[..i + 1][..i] == items[..i];
      match FloatOf(items[i], py) {
        case Some(f) => hist := hist + [f];
        case None =>
      }
    }
    assert items[..|items|] == items;
  }

  /** Numbers sent by the caller convert one for one. */
  lemma {:induction false} FloatsOfNumbers(xs: seq<real>, py: PyBuiltins)
    ensures Floats(seq(|xs|, i requires 0 <= i < |xs| => Num(xs[i])), py) == seq(|xs|, i requires 0 <= i < |xs| => Fin(xs[i]))
    decreases |xs|
  {
    if xs != [] {
      var init := xs[..|xs| - 1];
      var items := seq(|xs|, i requires 0 <= i < |xs| => Num(xs[i]));
      assert items[..|items| - 1] == seq(|init|, i requires 0 <= i < |init| => Num(init[i]));
      FloatsOfNumbers(init, py);
      assert seq(|xs|, i requires 0 <= i < |xs| => Fin(xs[i]))
          == seq(|init|, i requires 0 <= i < |init| => Fin(init[i])) + [Fin(xs[|xs| - 1])];
    }
  }

  predicate AllFinite(hist: seq<PyFloat>) {
    forall i :: 0 <= i < |hist| ==> hist[i].Fin?
  }

  function Reals(hist: seq<PyFloat>): (xs: seq<real>)
    requires AllFinite(hist)
    ensures |xs| == |hist| && forall i :: 0 <= i < |xs| ==> hist[i] == Fin(xs[i])
  {
    seq(|hist|, i requires 0 <= i < |hist| && AllFinite(hist) => hist[i].r)
  }

  function Sum(xs: seq<real>): real {
    if xs == [] then 0.0 else xs[0] + Sum(xs[1..])
  }

  function Mean(xs: seq<real>): real
    requires |xs| > 0
  {
    Sum(xs) / (|xs| as real)
  }

  function Id(x: real): real {
    x
  }

  /** x squared; the second factor is kept a separate term, which the solver reasons about more readily than x * x. */
  function Square(x: real): real {
    x * Id(x)
  }

  /** A square is never negative, and it is zero only for zero. */
  lemma SquareSign(x: real)
    ensures Square(x) >= 0.0
    ensures Square(x) == 0.0 <==> x == 0.0
  {
    if x < 0.0 {
      assert Square(x) == (-x) * (-Id(x));
    }
  }

  /** The sum of squared deviations from m. */
  function SumSquares(xs: seq<real>, m: real): real {
    if xs == [] then 0.0 else Square(xs[0] - m) + SumSquares(xs[1..], m)
  }

  /** Sample variance: the n - 1 denominator. */
  function SampleVariance(xs: seq<real>): real
    requires |xs| >= 2
  {
    SumSquares(xs, Mean(xs)) / ((|xs| - 1) as real)
  }

  /** |deviation / sqrt(variance)| >= 3, without the square root. */
  predicate IsOutlier(deviation: real, variance: real) {
    Square(deviation) >= Square(Threshold) * variance
  }

  /** The decision the script makes once it has at least two finite samples and a value. */
  function Decide(xs: seq<real>, value: PyFloat): (out: Output)
    requires |xs| >= 2
    ensures out.zscore.Some? && out.zscore.value.Z? ==> out.zscore.value.variance > 0.0
    ensures out.zscore.None? <==> SampleVariance(xs) == 0.0
    ensures value.Fin? && out.zscore.Some? ==> out.zscore.value == Z(value.r - Mean(xs), SampleVariance(xs))
    ensures out.status == "Outlier" <==>
      out.zscore.Some? && out.zscore.value.Z? && IsOutlier(out.zscore.value.deviation, out.zscore.value.variance)
  {
    VarianceNonNegative(xs);
    var variance := SampleVariance(xs);
    if variance == 0.0 then NormalNoScore  // std == 0
    else match value
      case FloatNaN => Output("Normal", Some(ZNaN))  // abs(nan) >= 3.0 is False
      case Fin(x) =>
        var deviation := x - Mean(xs);
        Output(if IsOutlier(deviation, variance) then "Outlier" else "Normal", Some(Z(deviation, variance)))
  }

  /** Everything after the conversion loop: the sample-count guard, the nan and zero-spread guards, the threshold. */
  function Classify(hist: seq<PyFloat>, value: JVal, py: PyBuiltins): Output {
    if |hist| < 2 then NormalNoScore
    else if !AllFinite(hist) then NormalNoScore  // a nan sample makes the mean and std nan
    else if SampleVariance(Reals(hist)) == 0.0 then NormalNoScore
    else match FloatOf(value, py)
      case None => NormalNoScore  // float(value) raises
      case Some(v) => Decide(Reals(hist), v)
  }

  /** `payload.get("history", []) or []`: the history entry, an empty list when it is missing or falsy. */
  function HistoryOf(m: map<string, JVal>): (h: JVal)
    ensures "history" in m && PyTruthy(m["history"]) ==> h == m["history"]
    ensures !("history" in m && PyTruthy(m["history"])) ==> h == Arr([])
  {
    var h := if "history" in m then m["history"] else Arr([]);
    if PyTruthy(h) then h else Arr([])
  }

  /** `payload.get("value")`: None (null) when the entry is missing. */
  function ValueOf(m: map<string, JVal>): (v: JVal)
    ensures v.Null? <==> "value" !in m || m["value"].Null?
  {
    if "value" in m then m["value"] else Null
  }

  /**
   * `main()` on the text read from stdin. Its status is "Normal" or "Outlier"; it is
   * "Outlier" exactly when a finite score with positive variance reaches the threshold,
   * and without a score it is always "Normal". Each early exit of the script (empty
   * input, a parse failure, a payload that is not a dict, no value, a history that is
   * not iterable, fewer than two usable samples) answers Normal with no score.
   */
  function Main(raw: string, py: PyBuiltins): (out: Output)
    ensures out.status == "Normal" || out.status == "Outlier"
    ensures out.zscore.None? ==> out.status == "Normal"
    ensures out.zscore.Some? && out.zscore.value.Z? ==> out.zscore.value.variance > 0.0
    ensures out.status == "Outlier" <==>
      out.zscore.Some? && out.zscore.value.Z? && IsOutlier(out.zscore.value.deviation, out.zscore.value.variance)
    ensures raw == "" || py.loads(raw).None? || !py.loads(raw).value.Obj? ==> out == NormalNoScore
    ensures raw != "" && py.loads(raw).Some? && py.loads(raw).value.Obj? ==>
      var m := py.loads(raw).value.fields;
      var items := Iterate(HistoryOf(m), py);
      && (ValueOf(m).Null? ==> out == NormalNoScore)
      && (items.None? ==> out == NormalNoScore)
      && (items.Some? && |Floats(items.value, py)| < 2 ==> out == NormalNoScore)
      && (!ValueOf(m).Null? && items.Some? ==> out == Classify(Floats(items.value, py), ValueOf(m), py))
  {
    if raw == "" then NormalNoScore
    else match py.loads(raw)
      case None => NormalNoScore  // json.loads raises
      case Some(payload) =>
        if !payload.Obj? then NormalNoScore  // payload.get raises
        else
          var m := payload.fields;
          var value := ValueOf(m);
          if value.Null? then NormalNoScore
          else match Iterate(HistoryOf(m), py)
            case None => NormalNoScore  // the history is not iterable
            case Some(items) => Classify(Floats(items, py), value, py)
  }

  /** n equal samples sum to n times their value. */
  lemma {:induction false} SumConstant(xs: seq<real>, c: real)
    requires forall i :: 0 <= i < |xs| ==> xs[i] == c
    ensures Sum(xs) == (|xs| as real) * c
    decreases |xs|
  {
    if xs != [] {
      SumConstant(xs[1..], c);
    }
  }

  /** A sum of squares is never negative, and it is zero exactly when every term is. */
  lemma {:induction false} SumSquaresZero(xs: seq<real>, m: real)
    ensures SumSquares(xs, m) >= 0.0
    ensures SumSquares(xs, m) == 0.0 <==> forall i :: 0 <= i < |xs| ==> xs[i] == m
    decreases |xs|
  {
    if xs != [] {
      SumSquaresZero(xs[1..], m);
      var d := xs[0] - m;
      assert SumSquares(xs, m) == Square(d) + SumSquares(xs[1..], m);
      SquareSign(d);
      if forall i :: 0 <= i < |xs[1..]| ==> xs[1..][i] == m {
        if d == 0.0 {
          forall i | 0 <= i < |xs| ensures xs[i] == m {
            if i > 0 { assert xs[i] == xs[1..][i - 1]; }
          }
        }
      } else {
        var j :| 0 <= j < |xs[1..]| && xs[1..][j] != m;
        assert xs[j + 1] != m;
      }
    }
  }

  /** The sample variance is never negative. */
  lemma VarianceNonNegative(xs: seq<real>)
    requires |xs| >= 2
    ensures SampleVariance(xs) >= 0.0
  {
    SumSquaresZero(xs, Mean(xs));
  }

  /** Zero spread: the sample variance is zero exactly when all samples are equal. */
  lemma VarianceZeroIffConstant(xs: seq<real>)
    requires |xs| >= 2
    ensures SampleVariance(xs) == 0.0 <==> forall i :: 0 <= i < |xs| ==> xs[i] == xs[0]
  {
    var n := |xs| as real;
    var m := Mean(xs);
    SumSquaresZero(xs, m);
    if forall i :: 0 <= i < |xs| ==> xs[i] == xs[0] {
      SumConstant(xs, xs[0]);
      assert m == xs[0];
    } else {
      var i :| 0 <= i < |xs| && xs[i] != xs[0];
      assert xs[i] != m || xs[0] != m;
    }
  }

  /**
   * The sqrt-free test is the script's test: for the real standard deviation
   * std = sqrt(variance) > 0, |deviation / std| >= 3 exactly when IsOutlier holds.
   */
  lemma ThreeSigmaRule(deviation: real, variance: real, std: real)
    requires std > 0.0 && Square(std) == variance
    ensures (deviation / std >= Threshold || deviation / std <= -Threshold) <==> IsOutlier(deviation, variance)
  {
    var z := deviation / std;
    assert deviation == z * std;
    assert Square(deviation) == (z * z) * variance;
    assert z >= 3.0 || z <= -3.0 <==> z * z >= 9.0 by {
      if z >= 3.0 { assert z * z >= 3.0 * z; }
      else if z <= -3.0 { assert z * z >= -3.0 * z; }
      else if z >= 0.0 { assert z * z <= 3.0 * z; assert 3.0 * z < 9.0; }
      else { assert z * z <= -3.0 * z; assert -3.0 * z < 9.0; }
    }
    assert variance > 0.0;
  }

  /** The payload the caller sends: `{history: [numbers], value: number}`. */
  function CallerPayload(history: seq<real>, value: real): JVal {
    Obj(map["history" := Arr(seq(|history|, i requires 0 <= i < |history| => Num(history[i]))), "value" := Num(value)])
  }

  /**
   * On the caller's payload the script is exactly the z-score rule: fewer than two
   * samples gives Normal with no score, otherwise the decision over mean and
   * sample variance.
   */
  lemma MainOnCallerPayload(raw: string, py: PyBuiltins, history: seq<real>, value: real)
    requires raw != "" && py.loads(raw) == Some(CallerPayload(history, value))
    ensures Main(raw, py) == if |history| < 2 then NormalNoScore else Decide(history, Fin(value))
  {
    var items := seq(|history|, i requires 0 <= i < |history| => Num(history[i]));
    FloatsOfNumbers(history, py);
    var hist := Floats(items, py);
    assert |hist| == |history|;
    if |history| >= 2 {
      assert Reals(hist) == history;
      if |history| > 0 { assert PyTruthy(Arr(items)); }
    } else if history == [] {
      assert items == [];
    }
  }

  /** A history whose samples are all equal never yields a score, so it never flags an outlier. */
  lemma ConstantHistoryIsNormal(raw: string, py: PyBuiltins, history: seq<real>, value: real)
    requires raw != "" && py.loads(raw) == Some(CallerPayload(history, value))
    requires forall i :: 0 <= i < |history| ==> history[i] == history[0]
    ensures Main(raw, py) == NormalNoScore
  {
    MainOnCallerPayload(raw, py, history, value);
    if |history| >= 2 {
      VarianceZeroIffConstant(history);
    }
  }
}
