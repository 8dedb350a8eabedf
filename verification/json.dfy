/** The Python values `json.loads` produces, and the two built-ins the note
    loop applies to them: `int()` and iteration. */
module Json {
  import opened Wrappers
  import opened Text

  /** A decoded JSON value. A number written with a fraction or an exponent
      becomes a Python float; `JFloat(m, e)` stands for the decimal value
      m * 10^e exactly as written. `json.loads` rounds such a number to the
      nearest binary double, or to infinity when it is too large; this model
      keeps the exact decimal instead. */
  datatype Json =
    | JNull
    | JBool(b: bool)
    | JInt(i: int)
    | JFloat(mantissa: int, exponent: int)
    | JStr(s: string)
    | JArr(items: seq<Json>)
    | JObj(fields: seq<(string, Json)>)

  function Pow10(n: nat): (p: nat)
    ensures p >= 1
  {
    if n == 0 then 1 else 10 * Pow10(n - 1)
  }

  /** `m * 10^n`, one decimal digit at a time. */
  function Shift(m: int, n: nat): int {
    if n == 0 then m else 10 * Shift(m, n - 1)
  }

  /** Division by ten rounding toward zero, as Python's `int()` truncates a
      float (Dafny's `/` rounds toward negative infinity for negatives). */
  function TruncDiv10(a: int): int {
    if a >= 0 then a / 10 else -((-a) / 10)
  }

  /** Division by `10^n` rounding toward zero, one digit at a time. */
  function DropDigits(a: int, n: nat): int
    decreases n
  {
    if n == 0 then a else DropDigits(TruncDiv10(a), n - 1)
  }

  /** Dropping digits commutes with negation. */
  lemma {:induction false} DropDigitsNeg(a: int, n: nat)
    ensures DropDigits(-a, n) == -DropDigits(a, n)
    decreases n
  {
    if n > 0 {
      assert TruncDiv10(-a) == -TruncDiv10(a);
      DropDigitsNeg(TruncDiv10(a), n - 1);
    }
  }

  /** Multiplying by ten times `d` is ten times multiplying by `d`. */
  lemma TimesTen(x: int, d: int)
    ensures x * (10 * d) == 10 * (x * d)
  {
  }

  /** For a non-negative value, dropping `n` digits is floor division by
      `10^n`. */
  lemma {:induction false} DropDigitsBounds(a: nat, n: nat)
    ensures DropDigits(a, n) * Pow10(n) <= a < (DropDigits(a, n) + 1) * Pow10(n)
    decreases n
  {
    if n > 0 {
      var t := a / 10;
      var r := DropDigits(t, n - 1);
      var d := Pow10(n - 1);
      DropDigitsBounds(t, n - 1);
      assert DropDigits(a, n) == r;
      assert Pow10(n) == 10 * d;
      TimesTen(r, d);
      TimesTen(r + 1, d);
      assert 10 * t <= a < 10 * t + 10;
    }
  }

  /** `int(v)`: None where Python raises (TypeError or ValueError). */
  function PyInt(v: Json): (r: Option<int>)
    ensures v.JInt? ==> r == Some(v.i)
    ensures v.JBool? ==> r == Some(if v.b then 1 else 0)
    ensures v.JNull? || v.JArr? || v.JObj? ==> r.None?
    ensures v.JFloat? ==> r.Some?
    ensures v.JStr? ==> r == ParseInt(v.s)
  {
    match v
    case JNull => None
    case JBool(b) => Some(if b then 1 else 0)
    case JInt(i) => Some(i)
    case JFloat(m, e) =>
      if e >= 0 then Some(Shift(m, e)) else Some(DropDigits(m, -e))
    case JStr(s) => ParseInt(s)
    case JArr(_) => None
    case JObj(_) => None
  }

  /** `int()` of a float with a fraction drops the fraction: the result is
      the integer next to the value on the side of zero. */
  lemma PyIntOfFraction(m: int, e: int)
    requires e < 0
    ensures var r := PyInt(JFloat(m, e)).value; var d := Pow10(-e);
      if m >= 0 then r * d <= m < (r + 1) * d
      else (r - 1) * d < m <= r * d
  {
    var d := Pow10(-e);
    var r := DropDigits(m, -e);
    if m >= 0 {
      DropDigitsBounds(m, -e);
    } else {
      DropDigitsNeg(-m, -e);
      DropDigitsBounds(-m, -e);
      var s := DropDigits(-m, -e);
      assert r == -s;
      assert r * d == -(s * d);
      assert (r - 1) * d == -((s + 1) * d);
    }
  }

  /** `int()` of a negative float goes toward zero: `int(-2.5) == -2`,
      where floor division would give -3. */
  lemma PyIntTruncatesTowardZero()
    ensures PyInt(JFloat(-25, -1)) == Some(-2)
    ensures PyInt(JFloat(25, -1)) == Some(2)
  {
    assert Pow10(1) == 10;
  }

  /** `str(v)`. Strings, integers, booleans and null print as Python prints
      them; for floats, lists and dicts the printed form is supplied by
      `repr`. */
  function PyStr(v: Json, repr: Json -> string): (s: string)
    ensures v.JStr? ==> s == v.s
  {
    match v
    case JStr(t) => t
    case JInt(i) => IntToString(i)
    case JBool(b) => if b then "True" else "False"
    case JNull => "None"
    case _ => repr(v)
  }

  /** `int(str(i)) == i`: printing an integer loses nothing. */
  lemma PyStrOfInt(i: int, repr: Json -> string)
    ensures ParseInt(PyStr(JInt(i), repr)) == Some(i)
  {
    ParseIntOfIntToString(i);
  }

  /** `d.get(key)` on the dict decoded from `fields`: when a key repeats,
      the last value wins. */
  function Get(fields: seq<(string, Json)>, key: string): (r: Option<Json>)
    ensures r.Some? <==> exists k :: 0 <= k < |fields| && fields[k].0 == key
    ensures r.Some? ==> exists k :: (0 <= k < |fields| && fields[k].0 == key && fields[k].1 == r.value
                                     && forall j :: k < j < |fields| ==> fields[j].0 != key)
  {
    if |fields| == 0 then None
    else if fields[|fields| - 1].0 == key then Some(fields[|fields| - 1].1)
    else
      var r := Get(fields[..|fields| - 1], key);
      assert forall k :: 0 <= k < |fields| - 1 ==> fields[..|fields| - 1][k] == fields[k];
      r
  }

  /** A field under another key does not change a lookup. */
  lemma GetSkipsOtherKey(fields: seq<(string, Json)>, k: string, v: Json, key: string)
    requires k != key
    ensures Get(fields + [(k, v)], key) == Get(fields, key)
  {
    assert (fields + [(k, v)])[..|fields|] == fields;
  }


  /** The keys of the dict decoded from `fields`, each once, in order of
      first appearance (the order of a Python dict). */
  function DistinctKeys(fields: seq<(string, Json)>, seen: set<string>): (ks: seq<string>)
    ensures forall k :: 0 <= k < |ks| ==> ks[k] !in seen
    ensures forall i, j :: 0 <= i < j < |ks| ==> ks[i] != ks[j]
    ensures forall k :: 0 <= k < |ks| ==> exists i :: 0 <= i < |fields| && fields[i].0 == ks[k]
    ensures forall i :: 0 <= i < |fields| && fields[i].0 !in seen ==> fields[i].0 in ks
  {
    if |fields| == 0 then []
    else
      var key := fields[0].0;
      if key in seen then DistinctKeys(fields[1..], seen)
      else [key] + DistinctKeys(fields[1..], seen + {key})
  }

  /** What `for item in value` yields: the elements of a list, the keys of a
      dict, the one-character strings of a string; iterating anything else
      raises TypeError (None). */
  function Iterate(v: Json): (r: Option<seq<Json>>)
    ensures v.JArr? ==> r == Some(v.items)
    ensures v.JStr? ==> (r.Some? && |r.value| == |v.s|
                         && forall k :: 0 <= k < |v.s| ==> r.value[k] == JStr([v.s[k]]))
    ensures v.JNull? || v.JBool? || v.JInt? || v.JFloat? ==> r.None?
  {
    match v
    case JArr(items) => Some(items)
    case JObj(fields) =>
      var ks := DistinctKeys(fields, {});
      Some(seq(|ks|, k requires 0 <= k < |ks| => JStr(ks[k])))
    case JStr(s) => Some(seq(|s|, k requires 0 <= k < |s| => JStr([s[k]])))
    case _ => None
  }
}
