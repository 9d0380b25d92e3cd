/**
 * The JavaScript number conversions the app relies on: `parseFloat`,
 * `parseInt` (radix 10), `Number(string)`, `Number.prototype.toFixed(2)` and
 * the decimal text of a number (`String(n)`, `n.toString()`), over exact reals.
 */
module JsNumber {
  import opened Js

  predicate IsDigit(c: char) { '0' <= c <= '9' }

  predicate AllDigits(s: string)
  {
    forall i {:trigger IsDigit(s[i])} :: 0 <= i < |s| ==> IsDigit(s[i])
  }

  /** The value of a decimal digit character (0 for any other character). */
  function DigitValue(c: char): nat
  {
    if IsDigit(c) then c as int - '0' as int else 0
  }

  function DigitChar(d: nat): (c: char)
    requires d < 10
    ensures IsDigit(c) && DigitValue(c) == d
  {
    ('0' as int + d) as char
  }

  /** Length of the longest prefix of `s` made of decimal digits. */
  function DigitRun(s: string): (n: nat)
    ensures n <= |s|
  {
    if |s| > 0 && IsDigit(s[0]) then 1 + DigitRun(s[1..]) else 0
  }

  /** The natural number a string of decimal digits denotes. */
  function DigitsValue(d: string): nat
  {
    if |d| == 0 then 0 else 10 * DigitsValue(d[..|d| - 1]) + DigitValue(d[|d| - 1])
  }

  /** `m * 10^e` for a signed exponent, one power of ten at a time. */
  function Scale(m: real, e: int): (r: real)
    ensures m >= 0.0 ==> r >= 0.0
    decreases if e >= 0 then e else -e
  {
    if e == 0 then m
    else if e > 0 then Scale(m, e - 1) * 10.0
    else Scale(m, e + 1) / 10.0
  }

  /**
   * An optional exponent part `e`/`E`, optional sign, at least one digit:
   * its value and its length; (0, 0) when there is none.
   */
  function ScanExponent(s: string): (r: (int, nat))
    ensures r.1 <= |s|
  {
    if |s| >= 2 && (s[0] == 'e' || s[0] == 'E') then
      var sl := if s[1] == '-' || s[1] == '+' then 1 else 0;
      var d := DigitRun(s[1 + sl..]);
      if d == 0 then (0, 0)
      else
        var mag := DigitsValue(s[1 + sl..][..d]);
        (if s[1] == '-' then -(mag as int) else mag as int, 1 + sl + d)
    else (0, 0)
  }

  /**
   * A decimal literal read from the front of a string: it denotes
   * `±digits * 10^exp`, and it used `len` characters.
   */
  datatype Scanned = Scanned(digits: nat, exp: int, neg: bool, len: nat)

  /** The number a scanned literal denotes. */
  function ScannedValue(sc: Scanned): real
  {
    SignedScale(sc.neg, sc.digits, sc.exp)
  }

  /** `±d * 10^e` */
  function SignedScale(neg: bool, d: nat, e: int): real
  {
    var m := Scale(d as real, e);
    if neg then -m else m
  }

  /**
   * Unsigned mantissa at the front of `s`: `digits ('.' digits?)? | '.' digits`,
   * or None when there is none. All its digits, read as one integer, scaled
   * down by the number of fraction digits.
   */
  function ScanMantissa(s: string): (r: Option<Scanned>)
    ensures r.Some? ==> 0 < r.value.len <= |s| && !r.value.neg
  {
    var ip := DigitRun(s);
    var hasDot := ip < |s| && s[ip] == '.';
    var fp := if hasDot then DigitRun(s[ip + 1..]) else 0;
    var frac := if hasDot then s[ip + 1..][..fp] else "";
    if ip == 0 && fp == 0 then None
    else
      Some(Scanned(DigitsValue(s[..ip] + frac), -fp, false,
                   if hasDot then ip + 1 + fp else ip))
  }

  /** An unsigned decimal literal, exponent included, at the front of `s`. */
  function ScanUnsigned(s: string): (r: Option<Scanned>)
    ensures r.Some? ==> 0 < r.value.len <= |s| && !r.value.neg
  {
    match ScanMantissa(s)
    case None => None
    case Some(m) =>
      var ex := ScanExponent(s[m.len..]);
      Some(Scanned(m.digits, m.exp + ex.0, false, m.len + ex.1))
  }

  /**
   * The longest prefix of `s` that is a signed decimal literal
   * (`[+-]? (digits ('.' digits?)? | '.' digits) exponent?`), or None when
   * `s` does not start with one.
   */
  function ScanDecimal(s: string): (r: Option<Scanned>)
    ensures r.Some? ==> 0 < r.value.len <= |s|
  {
    var sl := if |s| > 0 && (s[0] == '-' || s[0] == '+') then 1 else 0;
    match ScanUnsigned(s[sl..])
    case None => None
    case Some(u) => Some(Scanned(u.digits, u.exp, sl == 1 && s[0] == '-', sl + u.len))
  }

  /**
   * `parseFloat(s)`: leading white space is skipped, the longest decimal
   * prefix is read, NaN when there is none; blank text is NaN, where
   * `Number` gives 0.
   */
  function ParseFloat(s: string): (r: Num)
    ensures TrimStart(s) == "" ==> r == NaN
  {
    match ScanDecimal(TrimStart(s))
    case None => NaN
    case Some(sc) => Real(ScannedValue(sc))
  }

  /** `Number(s)` for a string: the whole trimmed text must be a decimal literal; the empty text is 0. */
  function StringToNumber(s: string): (r: Num)
    ensures Trim(s) == "" ==> r == Real(0.0)
  {
    var t := Trim(s);
    if t == "" then Real(0.0)
    else
      var sc := ScanDecimal(t);
      if sc.Some? && sc.value.len == |t| then Real(ScannedValue(sc.value)) else NaN
  }

  /** `parseInt(s)` with radix 10: leading white space, an optional sign, then the longest run of digits. */
  function ParseIntString(s: string): (r: Num)
    ensures r.Real? ==> IsIntegral(r.v)
    ensures TrimStart(s) == "" ==> r == NaN
  {
    var t := TrimStart(s);
    var sl := if |t| > 0 && (t[0] == '-' || t[0] == '+') then 1 else 0;
    var d := DigitRun(t[sl..]);
    if d == 0 then NaN
    else
      var mag := DigitsValue(t[sl..][..d]);
      if sl == 1 && t[0] == '-' then
        WholeIsIntegral(-(mag as int));
        Real(-(mag as real))
      else
        WholeIsIntegral(mag);
        Real(mag as real)
  }

  // --------------------------------------------------------------- printing

  /** The decimal digits of `n`, without leading zeros. */
  function NatToString(n: nat): (s: string)
    ensures |s| > 0 && AllDigits(s)
  {
    if n < 10 then [DigitChar(n)] else NatToString(n / 10) + [DigitChar(n % 10)]
  }

  /** The last `k` digits of `r`, with leading zeros. */
  function PadDigits(r: nat, k: nat): (s: string)
    ensures |s| == k && AllDigits(s)
  {
    if k == 0 then "" else PadDigits(r / 10, k - 1) + [DigitChar(r % 10)]
  }

  /** `n` with its last `k` digits dropped. */
  function DropDigits(n: nat, k: nat): nat
  {
    if k == 0 then n else DropDigits(n / 10, k - 1)
  }

  /** The text of `±n / 10^k` with exactly `k` fraction digits (no point when `k` is 0). */
  function FixedString(neg: bool, n: nat, k: nat): string
  {
    DecimalText(neg, NatToString(DropDigits(n, k)), PadDigits(n, k), k > 0)
  }

  /** A sign when `neg`, the integer digits, and the point with the fraction digits when `dot`. */
  function DecimalText(neg: bool, ip: string, fd: string, dot: bool): string
  {
    (if neg then "-" else "") + (ip + (if dot then "." + fd else ""))
  }

  /** The value `FixedString(neg, n, k)` denotes. */
  function FixedValue(neg: bool, n: nat, k: nat): real
  {
    SignedScale(neg, n, -(k as int))
  }

  /** The integer nearest to a non-negative `y`, halves rounded up. */
  function RoundHalfUp(y: real): (n: nat)
    requires y >= 0.0
    ensures n as real - 0.5 <= y < n as real + 0.5
  {
    (y + 0.5).Floor
  }

  function Abs(x: real): real { if x < 0.0 then -x else x }

  /**
   * `x.toFixed(2)`: a sign for negatives, then |x| rounded to the nearest
   * hundredth, always written with a point and exactly two fraction digits.
   */
  function ToFixed2(x: Num): (t: string)
    ensures x.Real? ==>
      |t| >= 4 && t[|t| - 3] == '.' && IsDigit(t[|t| - 2]) && IsDigit(t[|t| - 1])
      && (t[0] == '-' <==> x.v < 0.0)
  {
    match x
    case NaN => "NaN"
    case Real(v) =>
      FixedTwoShape(v < 0.0, RoundHalfUp(Abs(v) * 100.0));
      FixedString(v < 0.0, RoundHalfUp(Abs(v) * 100.0), 2)
  }

  /** The value `ToFixed2(Real(v))` prints. */
  function Rounded2(v: real): real
  {
    FixedValue(v < 0.0, RoundHalfUp(Abs(v) * 100.0), 2)
  }

  predicate IsIntegral(x: real) { x.Floor as real == x }

  /** `x` is written exactly with `k` fraction digits. */
  predicate ExactWith(x: real, k: nat) { IsIntegral(Scale(x, k)) }

  /** The fewest fraction digits, from `k` up to 20, that write `x` exactly (20 when none do). */
  function FractionDigits(x: real, k: nat): (r: nat)
    requires k <= 20
    ensures k <= r <= 20
    ensures r < 20 ==> ExactWith(x, r)
    decreases 20 - k
  {
    if k == 20 || ExactWith(x, k) then k
    else
      var r := FractionDigits(x, k + 1);
      r
  }

  /**
   * `String(n)`: NaN, or the shortest decimal text of the value (at most 20
   * fraction digits).
   */
  function NumberToString(x: Num): (t: string)
    ensures x.Real? ==> |t| > 0 && (t[0] == '-' <==> x.v < 0.0)
  {
    match x
    case NaN => "NaN"
    case Real(v) =>
      var k := FractionDigits(Abs(v), 0);
      FixedStringSign(v < 0.0, Scale(Abs(v), k).Floor, k);
      FixedString(v < 0.0, Scale(Abs(v), k).Floor, k)
  }

  /**
   * `String(v)`: the text `parseInt` and `parseFloat` read when given a
   * value that is not a string. An array is its elements' texts joined by
   * commas, `null` and `undefined` elements giving the empty text, so an
   * empty array is the empty text and a one-text array is that text.
   */
  function ToJsString(v: Json): (t: string)
    ensures v.JArr? && v.elems == [] ==> t == ""
    ensures v.JArr? && |v.elems| == 1 && v.elems[0].JStr? ==> t == v.elems[0].s
  {
    match v
    case JUndefined => "undefined"
    case JNull => "null"
    case JBool(b) => if b then "true" else "false"
    case JNum(n) => NumberToString(n)
    case JStr(s) => s
    case JObj(_) => "[object Object]"
    case JArr(es) =>
      JoinWithCommas(seq(|es|, i requires 0 <= i < |es| =>
        if es[i].JNull? || es[i].JUndefined? then "" else ToJsString(es[i])))
  }

  function JoinWithCommas(parts: seq<string>): string
  {
    if |parts| == 0 then ""
    else if |parts| == 1 then parts[0]
    else JoinWithCommas(parts[..|parts| - 1]) + "," + parts[|parts| - 1]
  }

  /** `parseInt(v)` with radix 10: a whole number or NaN, whatever the value. */
  function ParseIntJson(v: Json): (r: Num)
    ensures r.Real? ==> IsIntegral(r.v)
  {
    ParseIntString(ToJsString(v))
  }

  /** `parseFloat(v)`. */
  function ParseFloatJson(v: Json): Num
  {
    ParseFloat(ToJsString(v))
  }

  /** `Number(v)` (ToNumber): what `-`, `*` and a numeric `+` apply to their operands. */
  function ToNumber(v: Json): (r: Num)
    ensures v.JNum? ==> r == v.n
    ensures v.JUndefined? || v.JObj? ==> r == NaN
  {
    match v
    case JUndefined => NaN
    case JNull => Real(0.0)
    case JBool(b) => Real(if b then 1.0 else 0.0)
    case JNum(n) => n
    case JStr(s) => StringToNumber(s)
    case JObj(_) => NaN
    case JArr(_) => StringToNumber(ToJsString(v))
  }

  /**
   * `a + b`: when either operand is a string, an object or an array, both
   * become text and are joined; otherwise both become numbers and are added.
   */
  function JsPlus(a: Json, b: Json): (r: Json)
    ensures a.JNum? && b.JNum? ==> r == JNum(NumAdd(a.n, b.n))
    ensures a.JStr? ==> r == JStr(a.s + ToJsString(b))
  {
    if a.JStr? || a.JObj? || a.JArr? || b.JStr? || b.JObj? || b.JArr? then JStr(ToJsString(a) + ToJsString(b))
    else JNum(NumAdd(ToNumber(a), ToNumber(b)))
  }

  // ----------------------------------------------------------------- lemmas

  lemma {:induction false} NatToStringValue(n: nat)
    ensures DigitsValue(NatToString(n)) == n
  {
    var s := NatToString(n);
    if n >= 10 {
      NatToStringValue(n / 10);
      assert s[..|s| - 1] == NatToString(n / 10);
    }
  }

  /** The integer digits and the `k` fraction digits of a fixed-point text, read together, give back `n`. */
  lemma {:induction false} FixedDigitsValue(n: nat, k: nat)
    ensures DigitsValue(NatToString(DropDigits(n, k)) + PadDigits(n, k)) == n
  {
    if k == 0 {
      NatToStringValue(n);
      assert NatToString(n) + "" == NatToString(n);
    } else {
      FixedDigitsValue(n / 10, k - 1);
      var a := NatToString(DropDigits(n / 10, k - 1)) + PadDigits(n / 10, k - 1);
      var s := NatToString(DropDigits(n, k)) + PadDigits(n, k);
      assert s == a + [DigitChar(n % 10)];
      DigitsValueSnoc(a, DigitChar(n % 10));
    }
  }

  /** Appending a digit shifts the value one place and adds the digit. */
  lemma DigitsValueSnoc(a: string, c: char)
    ensures DigitsValue(a + [c]) == 10 * DigitsValue(a) + DigitValue(c)
  {
    assert (a + [c])[..|a|] == a;
  }

  lemma {:induction false} DigitRunOfDigits(d: string, rest: string)
    requires AllDigits(d)
    requires |rest| > 0 ==> !IsDigit(rest[0])
    ensures DigitRun(d + rest) == |d|
  {
    if |d| > 0 {
      assert (d + rest)[1..] == d[1..] + rest;
      DigitRunOfDigits(d[1..], rest);
    } else {
      assert d + rest == rest;
    }
  }

  /** Scaling up by ten, then down by `10^k`, is scaling down by `10^(k-1)`. */
  lemma {:induction false} ScaleDownTimesTen(y: real, k: nat)
    ensures Scale(y * 10.0, -(k as int)) == Scale(y, -(k as int)) * 10.0
  {
    if k > 0 {
      ScaleDownTimesTen(y, k - 1);
    }
  }

  /** Scaling down by `10^k` undoes scaling up by `10^k`. */
  lemma {:induction false} ScaleRoundTrip(x: real, k: nat)
    ensures Scale(Scale(x, k), -(k as int)) == x
  {
    if k > 0 {
      var y := Scale(x, k - 1);
      ScaleDownTimesTen(y, k);
      ScaleRoundTrip(x, k - 1);
    }
  }

  lemma ScaleDownTwo(m: real)
    ensures Scale(m, -2) == m / 100.0
  {
    assert Scale(m, -1) == m / 10.0;
  }

  /**
   * Text that cannot continue a decimal literal: empty, or starting with
   * neither a digit nor an exponent mark, nor with a point when the literal
   * has none yet.
   */
  predicate EndsLiteral(rest: string, dot: bool)
  {
    |rest| == 0 || (!IsDigit(rest[0]) && rest[0] != 'e' && rest[0] != 'E' && (dot || rest[0] != '.'))
  }

  /**
   * What `ScanMantissa` reads from a run of digits and an optional point with
   * fraction digits, at least one digit in all, whatever follows.
   */
  lemma ScanPlainMantissa(ip: string, fd: string, dot: bool, rest: string)
    requires AllDigits(ip) && AllDigits(fd) && (|ip| > 0 || (dot && |fd| > 0))
    requires !dot ==> fd == ""
    requires EndsLiteral(rest, dot)
    ensures var s := ip + (if dot then "." + fd else "");
      ScanMantissa(s + rest) == Some(Scanned(DigitsValue(ip + fd), -|fd|, false, |s|))
  {
    if dot {
      PointMantissa(ip, fd, rest);
    } else {
      assert ip + fd == ip;
      IntegerMantissa(ip, rest);
    }
  }

  /** `ScanMantissa` of digits, a point and fraction digits, then text that cannot continue them. */
  lemma PointMantissa(ip: string, fd: string, rest: string)
    requires AllDigits(ip) && AllDigits(fd) && (|ip| > 0 || |fd| > 0)
    requires EndsLiteral(rest, true)
    ensures ScanMantissa(ip + ("." + fd) + rest) == Some(Scanned(DigitsValue(ip + fd), -|fd|, false, |ip| + 1 + |fd|))
  {
    PointParts(ip, fd, rest);
    MantissaOfPoint(ip + ("." + fd) + rest, ip, fd);
  }

  /** Where the digit runs and the point of such a text lie. */
  lemma PointParts(ip: string, fd: string, rest: string)
    requires AllDigits(ip) && AllDigits(fd)
    requires EndsLiteral(rest, true)
    ensures var w := ip + ("." + fd) + rest;
      DigitRun(w) == |ip| && w[..|ip|] == ip && |ip| < |w| && w[|ip|] == '.'
      && DigitRun(w[|ip| + 1..]) == |fd| && w[|ip| + 1..][..|fd|] == fd
  {
    var w := ip + ("." + fd) + rest;
    assert DigitRun(w) == |ip| && w[..|ip|] == ip by {
      assert w == ip + ("." + fd + rest);
      DigitRunOfDigits(ip, "." + fd + rest);
    }
    assert |ip| < |w| && w[|ip|] == '.' && w[|ip| + 1..] == fd + rest by {
      assert w == ip + ("." + (fd + rest));
    }
    DigitRunOfDigits(fd, rest);
    assert (fd + rest)[..|fd|] == fd;
  }

  /** `ScanMantissa` once the two digit runs around the point are known. */
  lemma MantissaOfPoint(w: string, ip: string, fd: string)
    requires (|ip| > 0 || |fd| > 0) && |ip| < |w| && DigitRun(w) == |ip| && w[..|ip|] == ip && w[|ip|] == '.'
    requires DigitRun(w[|ip| + 1..]) == |fd| && w[|ip| + 1..][..|fd|] == fd
    ensures ScanMantissa(w) == Some(Scanned(DigitsValue(ip + fd), -|fd|, false, |ip| + 1 + |fd|))
  {
    MantissaWithPoint(w, |ip|, |fd|);
    assert w[..|ip|] + w[|ip| + 1..][..|fd|] == ip + fd;
  }

  /** `ScanMantissa` of digits, then text that cannot continue them. */
  lemma IntegerMantissa(ip: string, rest: string)
    requires |ip| > 0 && AllDigits(ip)
    requires EndsLiteral(rest, false)
    ensures ScanMantissa(ip + "" + rest) == Some(Scanned(DigitsValue(ip), 0, false, |ip|))
  {
    var w := ip + "" + rest;
    assert w == ip + rest;
    assert DigitRun(w) == |ip| && w[..|ip|] == ip by {
      DigitRunOfDigits(ip, rest);
    }
    assert !(|ip| < |w| && w[|ip|] == '.');
    MantissaWithoutPoint(w, |ip|);
    assert w[..|ip|] + "" == ip;
  }

  /** `ScanMantissa` of digits followed by a point and fraction digits. */
  lemma MantissaWithPoint(w: string, a: nat, f: nat)
    requires (0 < a || 0 < f) && a < |w| && DigitRun(w) == a && w[a] == '.'
    requires DigitRun(w[a + 1..]) == f
    ensures ScanMantissa(w) == Some(Scanned(DigitsValue(w[..a] + w[a + 1..][..f]), -(f as int), false, a + 1 + f))
  {
  }

  /** `ScanMantissa` of digits not followed by a point. */
  lemma MantissaWithoutPoint(w: string, a: nat)
    requires 0 < a && DigitRun(w) == a && !(a < |w| && w[a] == '.')
    ensures ScanMantissa(w) == Some(Scanned(DigitsValue(w[..a] + ""), 0, false, a))
  {
  }

  lemma ScanUnsignedPlain(ip: string, fd: string, dot: bool, rest: string)
    requires AllDigits(ip) && AllDigits(fd) && (|ip| > 0 || (dot && |fd| > 0))
    requires !dot ==> fd == ""
    requires EndsLiteral(rest, dot)
    ensures var s := ip + (if dot then "." + fd else "");
      ScanUnsigned(s + rest) == Some(Scanned(DigitsValue(ip + fd), -|fd|, false, |s|))
  {
    var s := ip + (if dot then "." + fd else "");
    ScanPlainMantissa(ip, fd, dot, rest);
    assert (s + rest)[|s|..] == rest;
    assert ScanExponent(rest) == (0, 0);
  }

  /** A leading minus sign marks the literal that follows it as negative. */
  lemma ScanMinus(w: string, t: string, u: Scanned, len: nat)
    requires w == "-" + t && ScanUnsigned(t) == Some(u) && len == 1 + u.len
    ensures ScanDecimal(w) == Some(Scanned(u.digits, u.exp, true, len))
  {
    assert w[0] == '-' && w[1..] == t;
  }

  /** A decimal text followed by more text is the sign, then the digits and fraction, then the rest. */
  lemma DecimalTextSplit(neg: bool, ip: string, fd: string, dot: bool, rest: string)
    ensures var body := ip + (if dot then "." + fd else "");
      DecimalText(neg, ip, fd, dot) + rest == (if neg then "-" else "") + (body + rest)
      && |DecimalText(neg, ip, fd, dot)| == (if neg then 1 else 0) + |body|
  {
  }

  /** An optional minus sign in front of an unsigned literal that starts with a digit or a point. */
  lemma ScanSigned(neg: bool, w: string, t: string, u: Scanned, len: nat)
    requires w == (if neg then "-" else "") + t
    requires |t| > 0 && (IsDigit(t[0]) || t[0] == '.') && ScanUnsigned(t) == Some(u)
    requires len == |w| - |t| + u.len
    ensures ScanDecimal(w) == Some(Scanned(u.digits, u.exp, neg, len))
  {
    if neg {
      assert w == "-" + t;
      ScanMinus(w, t, u, len);
    } else {
      assert w == t;
      ScanPlain(w, u, len);
    }
  }

  /** Without a sign the literal is the unsigned one. */
  lemma ScanPlain(w: string, u: Scanned, len: nat)
    requires |w| > 0 && w[0] != '-' && w[0] != '+'
    requires ScanUnsigned(w) == Some(u) && len == u.len
    ensures ScanDecimal(w) == Some(Scanned(u.digits, u.exp, false, len))
  {
    assert w[0..] == w;
  }

  /** The scanner reads the whole of a fixed-point text, and its digits denote `n`. */
  lemma FixedStringScan(neg: bool, n: nat, k: nat)
    ensures var s := FixedString(neg, n, k);
      ScanDecimal(s) == Some(Scanned(n, -(k as int), neg, |s|))
  {
    var ip := NatToString(DropDigits(n, k));
    var fd := PadDigits(n, k);
    var t := DecimalText(neg, ip, fd, k > 0);
    SignedDigitsScan(neg, ip, fd, k > 0, "");
    assert t + "" == t;
    FixedDigitsValue(n, k);
    assert Scanned(DigitsValue(ip + fd), -|fd|, neg, |t|) == Scanned(n, -(k as int), neg, |t|);
  }

  /**
   * What `ScanDecimal` reads from a sign, a run of digits and an optional
   * point with fraction digits: the literal and no more of what follows it.
   */
  lemma SignedDigitsScan(neg: bool, ip: string, fd: string, dot: bool, rest: string)
    requires AllDigits(ip) && AllDigits(fd) && (|ip| > 0 || (dot && |fd| > 0))
    requires !dot ==> fd == ""
    requires EndsLiteral(rest, dot)
    ensures var s := DecimalText(neg, ip, fd, dot);
      ScanDecimal(s + rest) == Some(Scanned(DigitsValue(ip + fd), -|fd|, neg, |s|))
  {
    var body := ip + (if dot then "." + fd else "");
    var s := DecimalText(neg, ip, fd, dot);
    var u := Scanned(DigitsValue(ip + fd), -|fd|, false, |body|);
    assert ScanUnsigned(body + rest) == Some(u) by {
      ScanUnsignedPlain(ip, fd, dot, rest);
    }
    assert |body + rest| > 0 && (IsDigit((body + rest)[0]) || (body + rest)[0] == '.') by {
      if |ip| > 0 {
        assert (body + rest)[0] == ip[0] && IsDigit(ip[0]);
      } else {
        assert (body + rest)[0] == '.';
      }
    }
    assert s + rest == (if neg then "-" else "") + (body + rest) && |s| == (if neg then 1 else 0) + |body| by {
      DecimalTextSplit(neg, ip, fd, dot, rest);
    }
    ScanSigned(neg, s + rest, body + rest, u, |s|);
  }

  /** A text that starts with a minus sign, a digit or a point has no white space to trim. */
  lemma TrimStartOfSignOrDigit(s: string)
    requires |s| > 0 && (s[0] == '-' || s[0] == '.' || IsDigit(s[0]))
    ensures TrimStart(s) == s
  {
    assert !IsWhite(s[0]);
  }

  /**
   * `parseFloat` of a decimal text, whatever follows it: its digits, read as
   * one integer, scaled down by the fraction digits, with the sign.
   */
  lemma ParseDecimalText(neg: bool, ip: string, fd: string, dot: bool, rest: string)
    requires AllDigits(ip) && AllDigits(fd) && (|ip| > 0 || (dot && |fd| > 0))
    requires !dot ==> fd == ""
    requires EndsLiteral(rest, dot)
    ensures ParseFloat(DecimalText(neg, ip, fd, dot) + rest) == Real(SignedScale(neg, DigitsValue(ip + fd), -|fd|))
  {
    var s := DecimalText(neg, ip, fd, dot);
    var sc := Scanned(DigitsValue(ip + fd), -|fd|, neg, |s|);
    assert TrimStart(s + rest) == s + rest by {
      var c := if |ip| > 0 then ip[0] else '.';
      assert c == '.' || IsDigit(c);
      assert (s + rest)[0] == if neg then '-' else c;
      TrimStartOfSignOrDigit(s + rest);
    }
    assert ScanDecimal(s + rest) == Some(sc) by {
      SignedDigitsScan(neg, ip, fd, dot, rest);
    }
    ParseFloatOfScan(s + rest, sc);
  }

  /** Text without a single digit holds no decimal literal: `parseFloat` gives NaN. */
  lemma ParseFloatWithoutDigits(t: string)
    requires forall i :: 0 <= i < |t| ==> !IsDigit(t[i])
    ensures ParseFloat(t) == NaN
  {
    var u := TrimStart(t);
    assert forall i :: 0 <= i < |u| ==> u[i] == t[|t| - |u| + i];
    var sl := if |u| > 0 && (u[0] == '-' || u[0] == '+') then 1 else 0;
    var v := u[sl..];
    assert DigitRun(v) == 0;
    if |v| > 0 && v[0] == '.' {
      assert DigitRun(v[1..]) == 0;
    }
    assert ScanMantissa(v) == None;
  }

  /** `parseFloat` of text with nothing to trim that scans as `sc` is the value of `sc`. */
  lemma ParseFloatOfScan(s: string, sc: Scanned)
    requires TrimStart(s) == s && ScanDecimal(s) == Some(sc)
    ensures ParseFloat(s) == Real(SignedScale(sc.neg, sc.digits, sc.exp))
  {
  }

  /** The parser reads back exactly what the printer writes. */
  lemma ParseFixedString(neg: bool, n: nat, k: nat)
    ensures ParseFloat(FixedString(neg, n, k)) == Real(FixedValue(neg, n, k))
  {
    var ip := NatToString(DropDigits(n, k));
    var fd := PadDigits(n, k);
    ParseDecimalText(neg, ip, fd, k > 0, "");
    assert DecimalText(neg, ip, fd, k > 0) + "" == DecimalText(neg, ip, fd, k > 0);
    FixedDigitsValue(n, k);
    var x := SignedScale(neg, DigitsValue(ip + fd), -|fd|);
    FixedValueOf(neg, DigitsValue(ip + fd), -|fd|, n, k);
    ParsedAs(FixedString(neg, n, k), DecimalText(neg, ip, fd, k > 0), x, FixedValue(neg, n, k));
  }

  lemma FixedValueOf(neg: bool, d: nat, e: int, n: nat, k: nat)
    requires d == n && e == -(k as int)
    ensures SignedScale(neg, d, e) == FixedValue(neg, n, k)
  {
  }

  lemma ParsedAs(t: string, u: string, x: real, y: real)
    requires t == u && ParseFloat(u) == Real(x) && x == y
    ensures ParseFloat(t) == Real(y)
  {
  }

  /** A fixed-point text starts with `-` exactly when it is negative. */
  lemma FixedStringSign(neg: bool, n: nat, k: nat)
    ensures var t := FixedString(neg, n, k);
      |t| > 0 && (t[0] == '-' <==> neg)
  {
    var ip := NatToString(DropDigits(n, k));
    var t := FixedString(neg, n, k);
    assert IsDigit(ip[0]);
    if neg {
      assert t[0] == '-';
    } else {
      assert t[0] == ip[0];
    }
  }

  /** Two fraction digits after a point end every `FixedString(_, _, 2)`. */
  lemma FixedTwoShape(neg: bool, n: nat)
    ensures var t := FixedString(neg, n, 2);
      |t| >= 4 && t[|t| - 3] == '.' && IsDigit(t[|t| - 2]) && IsDigit(t[|t| - 1])
      && (t[0] == '-' <==> neg)
  {
    var ip := NatToString(DropDigits(n, 2));
    var pd := PadDigits(n, 2);
    var t := FixedString(neg, n, 2);
    assert t == (if neg then "-" else "") + (ip + ("." + pd));
    assert IsDigit(pd[0]) && IsDigit(pd[1]);
    FixedStringSign(neg, n, 2);
  }

  /** Reading back `toFixed(2)` gives the value rounded to the nearest hundredth. */
  lemma ToFixed2RoundTrip(v: real)
    ensures ParseFloat(ToFixed2(Real(v))) == Real(Rounded2(v))
  {
    var n := RoundHalfUp(Abs(v) * 100.0);
    assert ToFixed2(Real(v)) == FixedString(v < 0.0, n, 2);
    ParseFixedString(v < 0.0, n, 2);
    assert Rounded2(v) == FixedValue(v < 0.0, n, 2);
  }

  /** Rounding to the nearest hundredth moves a value by at most half a hundredth. */
  lemma Rounded2Close(v: real)
    ensures Abs(Rounded2(v) - v) <= 0.005
  {
    var n := RoundHalfUp(Abs(v) * 100.0);
    ScaleDownTwo(n as real);
  }

  /** A value that is a whole number of hundredths is left unchanged by the rounding. */
  lemma ToFixed2Exact(c: int)
    ensures Rounded2(c as real / 100.0) == c as real / 100.0
  {
    var v := c as real / 100.0;
    var a := if c < 0 then -c else c;
    assert Abs(v) * 100.0 == a as real;
    assert RoundHalfUp(a as real) == a;
    ScaleDownTwo(a as real);
  }

  /** The decimal text of a number reads back as the same number whenever it is exact. */
  lemma NumberToStringRoundTrip(v: real)
    requires FractionDigits(Abs(v), 0) < 20
    ensures ParseFloat(NumberToString(Real(v))) == Real(v)
  {
    var k := FractionDigits(Abs(v), 0);
    var m := Scale(Abs(v), k).Floor;
    assert NumberToString(Real(v)) == FixedString(v < 0.0, m, k);
    ParseFixedString(v < 0.0, m, k);
    ExactFixedValue(v, k);
  }

  /** Printing the exact digits of `v` with `k` fraction digits denotes `v` itself. */
  lemma ExactFixedValue(v: real, k: nat)
    requires ExactWith(Abs(v), k)
    ensures FixedValue(v < 0.0, Scale(Abs(v), k).Floor, k) == v
  {
    ScaleRoundTrip(Abs(v), k);
  }

  /** A whole number prints as its plain digits. */
  lemma WholeNumberText(n: nat)
    ensures NumberToString(Real(n as real)) == NatToString(n)
  {
    assert Scale(n as real, 0) == n as real;
    assert FractionDigits(n as real, 0) == 0;
    assert FixedString(false, n, 0) == "" + (NatToString(n) + "");
  }

  /** `parseInt` reads plain digits back as the number they denote. */
  lemma ParseIntDigits(n: nat)
    ensures ParseIntString(NatToString(n)) == Real(n as real)
  {
    ParseIntOfDigits(NatToString(n));
    NatToStringValue(n);
  }

  lemma ParseIntOfDigits(t: string)
    requires |t| > 0 && AllDigits(t)
    ensures ParseIntString(t) == Real(DigitsValue(t) as real)
  {
    TrimStartOfSignOrDigit(t);
    assert t[0..] == t && t + "" == t && t[..|t|] == t;
    DigitRunOfDigits(t, "");
  }

  /** `parseInt` of a whole number gives the number back. */
  lemma ParseIntWholeNumber(n: nat)
    ensures ParseIntJson(JNum(Real(n as real))) == Real(n as real)
  {
    WholeNumberText(n);
    ParseIntDigits(n);
  }

  lemma WholeIsIntegral(k: int)
    ensures IsIntegral(k as real)
  {
  }

  /** `parseInt` of a whole number, negative ones included, gives the number back. */
  lemma ParseIntInteger(k: int)
    ensures ParseIntJson(JNum(Real(k as real))) == Real(k as real)
  {
    if k >= 0 {
      ParseIntWholeNumber(k);
    } else {
      var n: nat := -k;
      assert k as real == -(n as real);
      NegativeWholeNumberText(n);
      assert ToJsString(JNum(Real(k as real))) == "-" + NatToString(n);
      ParseIntNegativeDigits(n);
    }
  }

  /** A negative whole number prints as a minus sign and its digits. */
  lemma NegativeWholeNumberText(n: nat)
    requires n > 0
    ensures NumberToString(Real(-(n as real))) == "-" + NatToString(n)
  {
    assert Abs(-(n as real)) == n as real;
    assert Scale(n as real, 0) == n as real;
    assert FractionDigits(n as real, 0) == 0;
    assert FixedString(true, n, 0) == "-" + (NatToString(n) + "");
  }

  /** `parseInt` reads a minus sign and digits as the negative number they denote. */
  lemma ParseIntNegativeDigits(n: nat)
    ensures ParseIntString("-" + NatToString(n)) == Real(-(n as real))
  {
    var d := NatToString(n);
    var t := "-" + d;
    assert t[0] == '-' && !IsWhite(t[0]);
    assert TrimStart(t) == t;
    assert t[1..] == d;
    DigitRunOfDigits(d, "");
    assert d + "" == d;
    assert d[..|d|] == d;
    NatToStringValue(n);
  }

  /** Text that starts with neither a sign, a digit, a point nor white space has no number in front: `parseFloat` gives NaN. */
  lemma ParseFloatOfWord(s: string)
    requires |s| > 0 && !IsWhite(s[0]) && !IsDigit(s[0]) && s[0] != '.' && s[0] != '-' && s[0] != '+'
    ensures ParseFloat(s) == NaN
  {
    assert TrimStart(s) == s;
    assert DigitRun(s) == 0;
    assert s[0..] == s;
  }
}
