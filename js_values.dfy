/**
 * JavaScript values as the Node.js side of the system sees them, the coercions the
 * code relies on (`??`, `||`, `Number(...)`, property reads), and the string
 * operations the line decoders are built from (`trim`, `split`, `join`).
 *
 * The engine's own parsers (JSON.parse, JSON.stringify, the string-to-number
 * grammar, the Date parser, parseInt) are not modelled: they are fields of the
 * `Builtins` record, and a lemma that needs a fact about one of them states that
 * fact as a precondition.
 */
module JsValues {
  import opened Wrappers

  /** A JavaScript value. Numbers are `Num` (finite) or `NaN`; infinities and -0 are not distinguished. */
  datatype JVal =
    | Undef
    | Null
    | Bool(b: bool)
    | Num(n: real)
    | NaN
    | Str(s: string)
    | Arr(items: seq<JVal>)
    | Obj(fields: map<string, JVal>)

  /** What `Number(...)` can return. */
  type JsNumber = v: JVal | v.Num? || v.NaN? witness NaN

  /** A Date object: a time value in milliseconds, or an Invalid Date. */
  datatype Date = At(ms: int) | InvalidDate

  /** The engine's built-in parsers and printers, left uninterpreted. */
  datatype Builtins = Builtins(
    parseJson: string -> Option<JVal>,   // JSON.parse; None when it throws a SyntaxError
    stringify: JVal -> string,           // JSON.stringify
    numberOfString: string -> JsNumber,  // Number(s) for a string s
    stringOf: JVal -> string,            // String(v), used for arrays, numbers and booleans
    newDate: JVal -> Date,               // new Date(v)
    dateJson: int -> string,             // Date.prototype.toJSON for a valid time value
    parseInt: string -> Option<int>)     // parseInt(s, 10); None when it yields NaN

  /** `undefined` or `null`: the values `??` skips. */
  predicate Nullish(v: JVal) {
    v.Undef? || v.Null?
  }

  /** `a ?? b` */
  function Coalesce(a: JVal, b: JVal): JVal {
    if Nullish(a) then b else a
  }

  /** ToBoolean: the values `||`, `!` and `if` treat as false are undefined, null, false, 0, NaN and "". */
  predicate Truthy(v: JVal) {
    match v
    case Undef => false
    case Null => false
    case Bool(t) => t
    case Num(r) => r != 0.0
    case NaN => false
    case Str(s) => s != ""
    case Arr(_) => true
    case Obj(_) => true
  }

  /**
   * `o[key]`. Reading a property of null or undefined throws a TypeError, so callers
   * must have ruled those out. None of the keys the system reads is a property of a
   * string, number, boolean or array, so for those the read yields undefined.
   */
  function Get(o: JVal, key: string): JVal
    requires !Nullish(o)
  {
    if o.Obj? && key in o.fields then o.fields[key] else Undef
  }

  /** `o[k0] ?? o[k1] ?? ... ?? o[kn]` (`??` is associative, so the grouping does not matter). */
  function Chain(o: JVal, keys: seq<string>): JVal
    requires !Nullish(o) && |keys| > 0
    decreases |keys|
  {
    if |keys| == 1 then Get(o, keys[0]) else Coalesce(Get(o, keys[0]), Chain(o, keys[1..]))
  }

  /** A `??` chain yields the value of the first key whose value is neither undefined nor null. */
  lemma {:induction false} ChainPicksFirstPresent(o: JVal, keys: seq<string>, i: nat)
    requires !Nullish(o) && i < |keys|
    requires !Nullish(Get(o, keys[i]))
    requires forall j :: 0 <= j < i ==> Nullish(Get(o, keys[j]))
    ensures Chain(o, keys) == Get(o, keys[i])
  {
    if i > 0 {
      assert Nullish(Get(o, keys[0]));
      forall j | 0 <= j < i - 1 ensures Nullish(Get(o, keys[1..][j])) {
        assert keys[1..][j] == keys[j + 1];
      }
      ChainPicksFirstPresent(o, keys[1..], i - 1);
    }
  }

  /** When every key but the last is nullish, a `??` chain yields the last key's value, whatever it is. */
  lemma {:induction false} ChainFallsToLast(o: JVal, keys: seq<string>)
    requires !Nullish(o) && |keys| > 0
    requires forall j :: 0 <= j < |keys| - 1 ==> Nullish(Get(o, keys[j]))
    ensures Chain(o, keys) == Get(o, keys[|keys| - 1])
  {
    if |keys| > 1 {
      assert Nullish(Get(o, keys[0]));
      forall j | 0 <= j < |keys| - 2 ensures Nullish(Get(o, keys[1..][j])) {
        assert keys[1..][j] == keys[j + 1];
      }
      ChainFallsToLast(o, keys[1..]);
    }
  }

  /** `Number(v)`: ToNumber on the values JSON and the decoders produce. */
  function ToNumber(v: JVal, b: Builtins): JsNumber {
    match v
    case Undef => NaN
    case Null => Num(0.0)
    case Bool(t) => Num(if t then 1.0 else 0.0)
    case Num(_) => v
    case NaN => NaN
    case Str(s) => b.numberOfString(s)
    case Arr(_) => b.numberOfString(b.stringOf(v))  // an array converts through its string form
    case Obj(_) => NaN                              // "[object Object]" is not a number
  }

  /** ECMAScript WhiteSpace and LineTerminator code points: what `trim` strips and `\s` matches. */
  predicate IsSpace(c: char) {
    var n := c as int;
    n == 0x09 || n == 0x0A || n == 0x0B || n == 0x0C || n == 0x0D || n == 0x20 ||
    n == 0xA0 || n == 0x1680 || (0x2000 <= n <= 0x200A) || n == 0x2028 || n == 0x2029 ||
    n == 0x202F || n == 0x205F || n == 0x3000 || n == 0xFEFF
  }

  function TrimStart(s: string): (r: string)
    ensures |r| <= |s| && r == s[|s| - |r|..]
    ensures forall i :: 0 <= i < |s| - |r| ==> IsSpace(s[i])
    ensures r == [] || !IsSpace(r[0])
    decreases |s|
  {
    if |s| > 0 && IsSpace(s[0]) then TrimStart(s[1..]) else s
  }

  function TrimEnd(s: string): (r: string)
    ensures |r| <= |s| && r == s[..|r|]
    ensures forall i :: |r| <= i < |s| ==> IsSpace(s[i])
    ensures r == [] || !IsSpace(r[|r| - 1])
    decreases |s|
  {
    if |s| > 0 && IsSpace(s[|s| - 1]) then TrimEnd(s[..|s| - 1]) else s
  }

  /**
   * `s.trim()`: the longest infix of s that neither starts nor ends with white space.
   * It is empty exactly when s is all white space.
   */
  function Trim(s: string): (r: string)
    ensures r == [] || (!IsSpace(r[0]) && !IsSpace(r[|r| - 1]))
    ensures r == [] <==> forall i :: 0 <= i < |s| ==> IsSpace(s[i])
    ensures |r| <= |s|
  {
    var t := TrimStart(s);
    var r := TrimEnd(t);
    assert r == [] ==> t == [];
    r
  }

  /**
   * Trimming removes white space from the two ends and nothing else: the result is
   * the infix of s that starts at i, with only white space before it and after it.
   */
  lemma TrimIsInfix(s: string) returns (i: nat)
    ensures i + |Trim(s)| <= |s| && Trim(s) == s[i..i + |Trim(s)|]
    ensures forall k :: 0 <= k < i ==> IsSpace(s[k])
    ensures forall k :: i + |Trim(s)| <= k < |s| ==> IsSpace(s[k])
  {
    var t := TrimStart(s);
    assert Trim(s) == TrimEnd(t);
    i := |s| - |t|;
    InfixOfInfix(s, t, Trim(s));
  }

  /** A prefix r of a suffix t of s, with white space cut from t's end, is an infix of s with white space after it. */
  lemma InfixOfInfix(s: string, t: string, r: string)
    requires |t| <= |s| && t == s[|s| - |t|..]
    requires |r| <= |t| && r == t[..|r|]
    requires forall k :: |r| <= k < |t| ==> IsSpace(t[k])
    ensures var i := |s| - |t|; r == s[i..i + |r|] && forall k :: i + |r| <= k < |s| ==> IsSpace(s[k])
  {
    var i := |s| - |t|;
    forall k | i + |r| <= k < |s|
      ensures IsSpace(s[k])
    {
      assert s[k] == t[k - i];
    }
  }

  /** The separators the line decoders split on. */
  predicate IsComma(c: char) { c == ',' }
  predicate IsSemicolon(c: char) { c == ';' }
  predicate IsColonOrEquals(c: char) { c == ':' || c == '=' }

  /** `!isNaN(Number(s))` for a string s. */
  predicate Numeric(s: string, b: Builtins) {
    b.numberOfString(s).Num?
  }

  /** A string that neither starts nor ends with white space is its own trim. */
  lemma TrimmedAlready(s: string)
    requires s == [] || (!IsSpace(s[0]) && !IsSpace(s[|s| - 1]))
    ensures Trim(s) == s
  {
    assert TrimStart(s) == s;
    assert TrimEnd(s) == s;
  }

  /** Trimming each element: `parts.map(p => p.trim())`. */
  function TrimAll(parts: seq<string>): (r: seq<string>)
    ensures |r| == |parts| && forall i :: 0 <= i < |r| ==> r[i] == Trim(parts[i])
  {
    seq(|parts|, i requires 0 <= i < |parts| => Trim(parts[i]))
  }

  /** Trimming parts that are already trimmed changes nothing. */
  lemma TrimAllTrimmed(parts: seq<string>)
    requires forall i :: 0 <= i < |parts| ==> Trim(parts[i]) == parts[i]
    ensures TrimAll(parts) == parts
  {
    var r := TrimAll(parts);
    assert |r| == |parts|;
    forall i | 0 <= i < |r| ensures r[i] == parts[i] {
      assert r[i] == Trim(parts[i]);
    }
  }

  /** `parts.filter(Boolean)` on strings: keeps the non-empty ones, in order. */
  function NonEmptyOnly(parts: seq<string>): (r: seq<string>)
    ensures |r| <= |parts|
    ensures forall i :: 0 <= i < |r| ==> r[i] != [] && r[i] in parts
    ensures forall p :: p in parts && p != [] ==> p in r
  {
    if parts == [] then []
    else
      var rest := NonEmptyOnly(parts[1..]);
      assert forall p :: p in parts[1..] ==> p in parts;
      if parts[0] == [] then rest else [parts[0]] + rest
  }

  /**
   * The filter works part by part: on a concatenation it is the concatenation of the
   * filtered halves, and a single part is kept exactly when it is non-empty. Together
   * these fix the result, order and repetitions included.
   */
  lemma {:induction false} NonEmptyOnlyAppend(a: seq<string>, c: seq<string>)
    ensures NonEmptyOnly(a + c) == NonEmptyOnly(a) + NonEmptyOnly(c)
    ensures forall p :: NonEmptyOnly([p]) == if p == [] then [] else [p]
    decreases |a|
  {
    if a == [] {
      assert a + c == c;
    } else {
      assert (a + c)[0] == a[0] && (a + c)[1..] == a[1..] + c;
      NonEmptyOnlyAppend(a[1..], c);
    }
  }

  /** Keeping the non-empty parts of a list with no empty part keeps them all. */
  lemma {:induction false} NonEmptyOnlyKeepsAll(parts: seq<string>)
    requires forall i :: 0 <= i < |parts| ==> parts[i] != []
    ensures NonEmptyOnly(parts) == parts
    decreases |parts|
  {
    if parts != [] {
      NonEmptyOnlyKeepsAll(parts[1..]);
    }
  }

  predicate NoSep(s: string, isSep: char -> bool) {
    forall c :: c in s ==> !isSep(c)
  }

  /**
   * `s.split(sep)` for a separator matching one character at a time (a character or
   * a character class): every separator character ends one part, so there is always
   * one part more than there are separators, and no part holds a separator.
   */
  function Split(s: string, isSep: char -> bool): (parts: seq<string>)
    ensures |parts| >= 1
    ensures forall i :: 0 <= i < |parts| ==> NoSep(parts[i], isSep)
  {
    if s == [] then [[]]
    else
      var tail := Split(s[1..], isSep);
      if isSep(s[0]) then [[]] + tail
      else
        assert NoSep([s[0]] + tail[0], isSep) by {
          forall c | c in [s[0]] + tail[0] ensures !isSep(c) {
            if c != s[0] { assert c in tail[0]; }
          }
        }
        [[s[0]] + tail[0]] + tail[1..]
  }

  /** `parts.join(sep)` for a one-character separator. */
  function Join(parts: seq<string>, sep: char): string {
    if parts == [] then []
    else if |parts| == 1 then parts[0]
    else parts[0] + [sep] + Join(parts[1..], sep)
  }

  /** A join is at least as long as its first part. */
  lemma JoinLength(parts: seq<string>, sep: char)
    requires |parts| > 0
    ensures |Join(parts, sep)| >= |parts[0]|
  {
  }

  /** s with every separator character replaced by `sep`. */
  function ReplaceSeps(s: string, isSep: char -> bool, sep: char): (r: string)
    ensures |r| == |s|
    ensures forall i :: 0 <= i < |s| ==> r[i] == if isSep(s[i]) then sep else s[i]
  {
    seq(|s|, i requires 0 <= i < |s| => if isSep(s[i]) then sep else s[i])
  }

  /** Splitting and re-joining with `sep` gives back s with each separator rewritten to `sep`. */
  lemma {:induction false} JoinSplit(s: string, isSep: char -> bool, sep: char)
    ensures Join(Split(s, isSep), sep) == ReplaceSeps(s, isSep, sep)
    decreases |s|
  {
    if s != [] {
      var tail := Split(s[1..], isSep);
      JoinSplit(s[1..], isSep, sep);
      var c := if isSep(s[0]) then sep else s[0];
      assert ReplaceSeps(s, isSep, sep) == [c] + ReplaceSeps(s[1..], isSep, sep);
      if isSep(s[0]) {
        assert Split(s, isSep) == [[]] + tail;
        JoinEmptyFirst(tail, sep);
      } else {
        assert Split(s, isSep) == [[s[0]] + tail[0]] + tail[1..];
        JoinExtendFirst(s[0], tail, sep);
      }
    }
  }

  /** An empty first part contributes only the separator after it. */
  lemma JoinEmptyFirst(tail: seq<string>, sep: char)
    requires |tail| >= 1
    ensures Join([[]] + tail, sep) == [sep] + Join(tail, sep)
  {
    assert ([[]] + tail)[1..] == tail;
  }

  /** Prefixing the first part with x prefixes the join with x. */
  lemma JoinExtendFirst(x: char, tail: seq<string>, sep: char)
    requires |tail| >= 1
    ensures Join([[x] + tail[0]] + tail[1..], sep) == [x] + Join(tail, sep)
  {
    var parts := [[x] + tail[0]] + tail[1..];
    if |tail| > 1 {
      assert parts[1..] == tail[1..];
    }
  }

  /** Splitting with a single separator character undoes joining with it. */
  lemma SplitJoinRoundTrip(s: string, isSep: char -> bool, sep: char)
    requires forall c :: isSep(c) <==> c == sep
    ensures Join(Split(s, isSep), sep) == s
  {
    JoinSplit(s, isSep, sep);
    assert ReplaceSeps(s, isSep, sep) == s;
  }

  /** A string with no separator splits into itself alone. */
  lemma {:induction false} SplitNoSep(s: string, isSep: char -> bool)
    requires NoSep(s, isSep)
    ensures Split(s, isSep) == [s]
    decreases |s|
  {
    if s != [] {
      assert NoSep(s[1..], isSep) by {
        forall c | c in s[1..] ensures !isSep(c) { assert c in s; }
      }
      SplitNoSep(s[1..], isSep);
      assert !isSep(s[0]) by { assert s[0] in s; }
      assert [s[0]] + s[1..] == s;
    }
  }

  /** A string holding a separator splits into two parts or more. */
  lemma {:induction false} SplitOnSep(s: string, isSep: char -> bool)
    requires !NoSep(s, isSep)
    ensures |Split(s, isSep)| >= 2
    decreases |s|
  {
    var c :| c in s && isSep(c);
    if !isSep(s[0]) {
      assert c in s[1..];
      SplitOnSep(s[1..], isSep);
    }
  }

  /** A split yields more than one part exactly when the string holds a separator. */
  lemma SplitsIffSep(s: string, isSep: char -> bool)
    ensures |Split(s, isSep)| >= 2 <==> !NoSep(s, isSep)
  {
    if NoSep(s, isSep) {
      SplitNoSep(s, isSep);
    } else {
      SplitOnSep(s, isSep);
    }
  }

  /** The part before the first separator is split off whole, and splitting goes on after it. */
  lemma {:induction false} SplitAtFirstSep(p: string, c: char, t: string, isSep: char -> bool)
    requires NoSep(p, isSep) && isSep(c)
    ensures Split(p + [c] + t, isSep) == [p] + Split(t, isSep)
    decreases |p|
  {
    var s := p + [c] + t;
    if p == [] {
      assert s[0] == c && s[1..] == t;
    } else {
      assert NoSep(p[1..], isSep) by {
        forall x | x in p[1..] ensures !isSep(x) { assert x in p; }
      }
      SplitAtFirstSep(p[1..], c, t, isSep);
      assert s[1..] == p[1..] + [c] + t;
      assert !isSep(s[0]) by { assert s[0] == p[0] && p[0] in p; }
      assert [p[0]] + p[1..] == p;
    }
  }

  /** Joining separator-free parts and splitting again gives the parts back. */
  lemma {:induction false} SplitJoin(parts: seq<string>, isSep: char -> bool, sep: char)
    requires |parts| >= 1 && isSep(sep)
    requires forall i :: 0 <= i < |parts| ==> NoSep(parts[i], isSep)
    ensures Split(Join(parts, sep), isSep) == parts
    decreases |parts|
  {
    if |parts| == 1 {
      SplitNoSep(parts[0], isSep);
    } else {
      forall i | 0 <= i < |parts| - 1 ensures NoSep(parts[1..][i], isSep) {
        assert parts[1..][i] == parts[i + 1];
      }
      SplitJoin(parts[1..], isSep, sep);
      SplitAtFirstSep(parts[0], sep, Join(parts[1..], sep), isSep);
      assert [parts[0]] + parts[1..] == parts;
    }
  }
}
