/**
 * JavaScript values as the app's code sees them after JSON parsing, and the
 * few language-level operations on them that the model needs: truthiness,
 * `||`, `===`, property reads and the string methods `trim`, `toLowerCase`,
 * `toUpperCase` and `includes`.
 */
module Js {

  /** A JavaScript number. Infinities and the sign of zero are not modelled. */
  datatype Num = Real(v: real) | NaN

  /** A JavaScript value as found in parsed JSON or in component state. */
  datatype Json =
    | JUndefined
    | JNull
    | JBool(b: bool)
    | JNum(n: Num)
    | JStr(s: string)
    | JObj(fields: map<string, Json>)
    | JArr(elems: seq<Json>)

  /** A plain object: its own enumerable properties. `{...a, ...b}` is `a + b`. */
  type Obj = map<string, Json>

  datatype Option<+T> = None | Some(value: T)

  /** The `{success, data, error}` objects returned by the contexts. */
  datatype Response<+T> = Success(data: T) | Failure(error: string)

  function Zero(): Json { JNum(Real(0.0)) }

  /** `o.f`: an absent property reads as `undefined`. */
  function Prop(o: Obj, f: string): (r: Json)
    ensures f !in o ==> r == JUndefined
    ensures f in o ==> r == o[f]
  {
    if f in o then o[f] else JUndefined
  }

  /** `v.f` on a value that is neither `null` nor `undefined`: only objects have the app's properties. */
  function Member(v: Json, f: string): (r: Json)
    requires !v.JNull? && !v.JUndefined?
    ensures !v.JObj? ==> r == JUndefined
  {
    if v.JObj? then Prop(v.fields, f) else JUndefined
  }

  /** A list of objects as the array value handed to code that takes any value. */
  function AsArray(xs: seq<Obj>): (r: Json)
    ensures r.JArr? && |r.elems| == |xs|
    ensures forall i :: 0 <= i < |xs| ==> r.elems[i] == JObj(xs[i])
  {
    JArr(seq(|xs|, i requires 0 <= i < |xs| => JObj(xs[i])))
  }

  /** `{...o, a: x, b: y}`: the two fields set, every other field of `o` kept. */
  lemma OverrideTwo(o: Obj, a: string, x: Json, b: string, y: Json)
    requires a != b
    ensures (o + map[a := x, b := y]).Keys == o.Keys + {a, b}
    ensures (o + map[a := x, b := y])[a] == x && (o + map[a := x, b := y])[b] == y
    ensures forall k :: k in o && k != a && k != b ==> (o + map[a := x, b := y])[k] == o[k]
  {
  }

  /** `a + b` on numbers: NaN absorbs. */
  function NumAdd(a: Num, b: Num): (r: Num)
    ensures r.Real? <==> a.Real? && b.Real?
  {
    if a.Real? && b.Real? then Real(a.v + b.v) else NaN
  }

  /** `a * b` on numbers: NaN absorbs. */
  function NumMul(a: Num, b: Num): (r: Num)
    ensures r.Real? <==> a.Real? && b.Real?
  {
    if a.Real? && b.Real? then Real(a.v * b.v) else NaN
  }

  /** `n || d` for a number `n`: 0 and NaN are falsy. */
  function NumOr(n: Num, d: Num): (r: Num)
    ensures Or(JNum(n), JNum(d)) == JNum(r)
  {
    if n.Real? && n.v != 0.0 then n else d
  }

  /**
   * JavaScript truthiness (ToBoolean): every object and array is truthy,
   * even an empty one; NaN, 0 and the empty text are not.
   */
  predicate Truthy(v: Json)
    ensures v.JObj? || v.JArr? ==> Truthy(v)
    ensures v.JNum? ==> (Truthy(v) <==> v.n.Real? && v.n.v != 0.0)
    ensures v.JStr? ==> (Truthy(v) <==> v.s != "")
  {
    match v
    case JUndefined => false
    case JNull => false
    case JBool(b) => b
    case JNum(n) => n.Real? && n.v != 0.0
    case JStr(s) => |s| > 0
    case JObj(_) => true
    case JArr(_) => true
  }

  /** `a || b` */
  function Or(a: Json, b: Json): (r: Json)
    ensures Truthy(a) ==> r == a
    ensures !Truthy(a) ==> r == b
  {
    if Truthy(a) then a else b
  }

  /**
   * `a === b`. Primitives compare by value, NaN equals nothing; objects and
   * arrays are compared by reference in JavaScript, and two separately parsed
   * objects are never the same reference, so they compare unequal here.
   */
  predicate StrictEq(a: Json, b: Json)
    ensures StrictEq(a, b) ==> a == b && StrictEq(b, a)
    ensures StrictEq(a, b) ==> !a.JObj? && !a.JArr? && a != JNum(NaN)
  {
    match (a, b)
    case (JUndefined, JUndefined) => true
    case (JNull, JNull) => true
    case (JBool(x), JBool(y)) => x == y
    case (JNum(Real(x)), JNum(Real(y))) => x == y
    case (JStr(x), JStr(y)) => x == y
    case _ => false
  }

  /** A value that `===` finds equal to itself: every primitive except NaN. */
  predicate ComparableId(v: Json)
  {
    StrictEq(v, v)
  }

  lemma StrictEqIsEquality(a: Json, b: Json)
    ensures StrictEq(a, b) <==> a == b && ComparableId(a)
  {
  }

  // ---------------------------------------------------------------- strings

  /** The characters ECMAScript's `trim` and number parsing treat as white space or line terminators. */
  predicate IsWhite(c: char)
  {
    c == '\t' || c == '\n' || c == '\U{000B}' || c == '\U{000C}' || c == '\r' || c == ' '
    || c == '\U{00A0}' || c == '\U{1680}' || ('\U{2000}' <= c <= '\U{200A}')
    || c == '\U{2028}' || c == '\U{2029}' || c == '\U{202F}' || c == '\U{205F}'
    || c == '\U{3000}' || c == '\U{FEFF}'
  }

  /** `s.trimStart()` */
  function TrimStart(s: string): (r: string)
    ensures |r| <= |s| && r == s[|s| - |r|..]
    ensures |r| > 0 ==> !IsWhite(r[0])
    ensures forall i {:trigger IsWhite(s[i])} :: 0 <= i < |s| - |r| ==> IsWhite(s[i])
  {
    if |s| > 0 && IsWhite(s[0]) then TrimStart(s[1..]) else s
  }

  /** `s.trimEnd()` */
  function TrimEnd(s: string): (r: string)
    ensures |r| <= |s| && r == s[..|r|]
    ensures |r| > 0 ==> !IsWhite(r[|r| - 1])
    ensures forall i {:trigger IsWhite(s[i])} :: |r| <= i < |s| ==> IsWhite(s[i])
  {
    if |s| > 0 && IsWhite(s[|s| - 1]) then TrimEnd(s[..|s| - 1]) else s
  }

  /**
   * `s.trim()`: a piece of `s` that neither starts nor ends with white
   * space; text without white space at either end is left as it is.
   */
  function Trim(s: string): (r: string)
    ensures |r| <= |s|
    ensures |r| > 0 ==> !IsWhite(r[0]) && !IsWhite(r[|r| - 1])
    ensures |s| > 0 && !IsWhite(s[0]) && !IsWhite(s[|s| - 1]) ==> r == s
  {
    var t := TrimStart(s);
    assert |TrimEnd(t)| > 0 ==> TrimEnd(t)[0] == t[0];
    TrimEnd(t)
  }

  /** `s.trim()` is empty exactly when every character of `s` is white space. */
  lemma TrimEmptyIffAllWhite(s: string)
    ensures Trim(s) == "" <==> forall i :: 0 <= i < |s| ==> IsWhite(s[i])
  {
    var t := TrimStart(s);
    if |t| > 0 {
      assert t[0] == s[|s| - |t|];
    }
  }

  function LowerChar(c: char): char
  {
    if 'A' <= c <= 'Z' then (c as int + 32) as char else c
  }

  function UpperChar(c: char): char
  {
    if 'a' <= c <= 'z' then (c as int - 32) as char else c
  }

  /** `s.toLowerCase()` over the ASCII letters. */
  function ToLower(s: string): (r: string)
    ensures |r| == |s|
    ensures forall i :: 0 <= i < |s| ==> r[i] == LowerChar(s[i])
  {
    if s == [] then [] else [LowerChar(s[0])] + ToLower(s[1..])
  }

  /** `s.toUpperCase()` over the ASCII letters. */
  function ToUpper(s: string): (r: string)
    ensures |r| == |s|
    ensures forall i :: 0 <= i < |s| ==> r[i] == UpperChar(s[i])
  {
    if s == [] then [] else [UpperChar(s[0])] + ToUpper(s[1..])
  }

  predicate OccursAt(hay: string, needle: string, i: nat)
  {
    i + |needle| <= |hay| && hay[i..i + |needle|] == needle
  }

  /** `hay.includes(needle)`: the empty text is in every text, and nothing longer than `hay` is in it. */
  predicate Includes(hay: string, needle: string)
    ensures needle == "" ==> Includes(hay, needle)
    ensures Includes(hay, needle) ==> |needle| <= |hay|
  {
    assert needle == "" ==> OccursAt(hay, needle, 0);
    exists i: nat | i <= |hay| :: OccursAt(hay, needle, i)
  }
}
