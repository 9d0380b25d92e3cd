/**
 * Price normalisation, cart totals, tax and currency formatting
 * (src/utils/calculations.js).
 */
module Calculations {
  import opened Js
  import opened JsNumber

  /** The characters the price regular expression keeps: digits, `.` and `-`. */
  predicate IsPriceChar(c: char)
  {
    IsDigit(c) || c == '.' || c == '-'
  }

  /** `s.replace(/[^0-9.-]+/g, '')`: every other character is removed, wherever it occurs. */
  function StripPrice(s: string): (r: string)
    ensures |r| <= |s|
    ensures forall i :: 0 <= i < |r| ==> IsPriceChar(r[i])
  {
    if s == [] then [] else (if IsPriceChar(s[0]) then [s[0]] else []) + StripPrice(s[1..])
  }

  /**
   * `parsePriceString(price)`: a number is returned as it is (NaN included),
   * a string is stripped to its price characters and read with `parseFloat`,
   * NaN and 0 giving 0, and any other value gives 0.
   */
  function ParsePriceString(price: Json): (r: Num)
    ensures price.JNum? ==> r == price.n
    ensures price.JStr? ==> r.Real?
    ensures !price.JNum? && !price.JStr? ==> r == Real(0.0)
  {
    match price
    case JNum(n) => n
    case JStr(s) => NumOr(ParseFloat(StripPrice(s)), Real(0.0))
    case _ => Real(0.0)
  }

  /** `parseInt(item.quantity) || 0` */
  function QuantityOrZero(item: Json): (r: Num)
    requires !item.JNull? && !item.JUndefined?
    ensures r.Real?
  {
    NumOr(ParseIntJson(Member(item, "quantity")), Real(0.0))
  }

  /**
   * What one cart line adds to the running total: NaN exactly when the
   * line's price is the number NaN, since every text price and every
   * quantity is read as a number.
   */
  function LineTotal(item: Json): (r: Num)
    requires !item.JNull? && !item.JUndefined?
    ensures r.NaN? <==> Member(item, "price") == JNum(NaN)
  {
    NumMul(ParsePriceString(Member(item, "price")), QuantityOrZero(item))
  }

  /** Reading `item.price` throws on a `null` or `undefined` element; the model requires there is none. */
  predicate NoNullItems(items: Json)
  {
    items.JArr? ==> AllLinesReadable(items.elems)
  }

  predicate AllLinesReadable(lines: seq<Json>)
  {
    forall i :: 0 <= i < |lines| ==> !lines[i].JNull? && !lines[i].JUndefined?
  }

  /** The line totals of a cart, in order. */
  function LineTotals(lines: seq<Json>): (r: seq<Num>)
    requires AllLinesReadable(lines)
    ensures |r| == |lines|
    ensures forall i :: 0 <= i < |lines| ==> r[i] == LineTotal(lines[i])
  {
    seq(|lines|, i requires 0 <= i < |lines| => LineTotal(lines[i]))
  }

  /**
   * `reduce((total, x) => total + x, 0)`, folding from the left: a number
   * exactly when every term is, so one NaN line makes the whole total NaN.
   */
  function SumNums(ns: seq<Num>): (r: Num)
    ensures r.Real? <==> forall i :: 0 <= i < |ns| ==> ns[i].Real?
  {
    if |ns| == 0 then Real(0.0)
    else
      var init := ns[..|ns| - 1];
      assert forall i :: 0 <= i < |init| ==> init[i] == ns[i];
      NumAdd(SumNums(init), ns[|ns| - 1])
  }

  /**
   * `calculateTotalPrice(items)`: 0 for anything but an array, else the sum
   * of the line totals, which is NaN exactly when some line's price is the
   * number NaN.
   */
  function CalculateTotalPrice(items: Json): (r: Num)
    requires NoNullItems(items)
    ensures !items.JArr? ==> r == Real(0.0)
    ensures r.NaN? <==> items.JArr? && exists i :: 0 <= i < |items.elems| && Member(items.elems[i], "price") == JNum(NaN)
  {
    if !items.JArr? then Real(0.0) else SumNums(LineTotals(items.elems))
  }

  /**
   * `formatPrice(price, currency)`: the currency, then the normalised price
   * with a point and exactly two fraction digits, or `NaN`.
   */
  function FormatPrice(price: Json, currency: string): (f: string)
    ensures currency <= f
    ensures ParsePriceString(price).NaN? ==> f[|currency|..] == "NaN"
    ensures ParsePriceString(price).Real? ==>
      |f| >= |currency| + 4 && f[|f| - 3] == '.' && IsDigit(f[|f| - 2]) && IsDigit(f[|f| - 1])
  {
    PriceShape(ParsePriceString(price), currency);
    currency + ToFixed2(ParsePriceString(price))
  }

  /** The currency `formatPrice` uses when none is given. */
  const DefaultCurrency: string := "$"

  /** The tax rate `calculateOrderTotals` uses when none is given (10%). */
  const DefaultTaxRate: Num := Real(0.1)

  datatype OrderTotals = OrderTotals(
    subtotal: Num, tax: Num, total: Num,
    formattedSubtotal: string, formattedTax: string, formattedTotal: string)

  /**
   * `calculateOrderTotals(items, taxRate)`: the subtotal is the cart total,
   * and the total is a number exactly when the subtotal and the rate are.
   */
  function CalculateOrderTotals(items: Json, taxRate: Num): (r: OrderTotals)
    requires NoNullItems(items)
    ensures r.subtotal == CalculateTotalPrice(items)
    ensures r.total.Real? <==> r.subtotal.Real? && taxRate.Real?
  {
    var subtotal := CalculateTotalPrice(items);
    var tax := NumMul(subtotal, taxRate);
    var total := NumAdd(subtotal, tax);
    OrderTotals(subtotal, tax, total,
      FormatPrice(JNum(subtotal), DefaultCurrency),
      FormatPrice(JNum(tax), DefaultCurrency),
      FormatPrice(JNum(total), DefaultCurrency))
  }

  // ----------------------------------------------------------- stripping

  /** Stripping works character by character, so it distributes over concatenation. */
  lemma {:induction false} StripPriceAppend(a: string, b: string)
    ensures StripPrice(a + b) == StripPrice(a) + StripPrice(b)
  {
    if a == [] {
      assert a + b == b;
    } else {
      assert (a + b)[1..] == a[1..] + b;
      StripPriceAppend(a[1..], b);
    }
  }

  /** A text made only of price characters is left as it is. */
  lemma {:induction false} StripPriceKeeps(s: string)
    requires forall i :: 0 <= i < |s| ==> IsPriceChar(s[i])
    ensures StripPrice(s) == s
  {
    if s != [] {
      StripPriceKeeps(s[1..]);
    }
  }

  /** Stripping twice is stripping once. */
  lemma StripPriceIdempotent(s: string)
    ensures StripPrice(StripPrice(s)) == StripPrice(s)
  {
    StripPriceKeeps(StripPrice(s));
  }

  // -------------------------------------------------------- normalisation

  /** A normalised price is a number, so normalising it again changes nothing. */
  lemma ParsePriceIdempotent(price: Json)
    ensures ParsePriceString(JNum(ParsePriceString(price))) == ParsePriceString(price)
  {
  }

  /** Only the price characters of a string matter: the noise around them is ignored. */
  lemma ParsePriceIgnoresNoise(s: string)
    ensures ParsePriceString(JStr(s)) == ParsePriceString(JStr(StripPrice(s)))
  {
    StripPriceIdempotent(s);
  }

  /** A currency prefix without price characters in front of a price text is dropped. */
  lemma StripPricePrefix(prefix: string, t: string)
    requires StripPrice(prefix) == ""
    requires forall i :: 0 <= i < |t| ==> IsPriceChar(t[i])
    ensures StripPrice(prefix + t) == t
  {
    StripPriceKeeps(t);
    StripPriceAppend(prefix, t);
  }

  /** A decimal text written with `DecimalText` holds only price characters. */
  lemma DecimalTextPriceChars(neg: bool, ip: string, fd: string, dot: bool)
    requires AllDigits(ip) && AllDigits(fd)
    ensures var t := DecimalText(neg, ip, fd, dot);
      forall i :: 0 <= i < |t| ==> IsPriceChar(t[i])
  {
    var t := DecimalText(neg, ip, fd, dot);
    var sl := if neg then 1 else 0;
    forall i | 0 <= i < |t|
      ensures IsPriceChar(t[i])
    {
      if i >= sl && i < sl + |ip| {
        assert t[i] == ip[i - sl] && IsDigit(ip[i - sl]);
      } else if i >= sl + |ip| + 1 {
        assert t[i] == fd[i - sl - |ip| - 1] && IsDigit(fd[i - sl - |ip| - 1]);
      }
    }
  }

  /**
   * A price text whose price characters start with a decimal literal reads
   * as that literal, sign included, whatever price characters follow it;
   * a literal of value 0 reads as 0.
   */
  lemma ParsePriceOfDecimal(s: string, neg: bool, ip: string, fd: string, dot: bool, rest: string)
    requires StripPrice(s) == DecimalText(neg, ip, fd, dot) + rest
    requires AllDigits(ip) && AllDigits(fd) && (!dot ==> fd == "") && (|ip| > 0 || (dot && |fd| > 0))
    requires EndsLiteral(rest, dot)
    ensures ParsePriceString(JStr(s)) == Real(SignedScale(neg, DigitsValue(ip + fd), -|fd|))
  {
    ParseDecimalText(neg, ip, fd, dot, rest);
    ParsePriceOfStripped(s, DecimalText(neg, ip, fd, dot) + rest);
  }

  /** Stripping keeps no character that was not there: text without digits stays without digits. */
  lemma {:induction false} StripPriceNoDigits(s: string)
    requires forall i :: 0 <= i < |s| ==> !IsDigit(s[i])
    ensures forall i :: 0 <= i < |StripPrice(s)| ==> !IsDigit(StripPrice(s)[i])
  {
    if s != [] {
      assert forall i :: 0 <= i < |s[1..]| ==> s[1..][i] == s[i + 1];
      StripPriceNoDigits(s[1..]);
    }
  }

  /** A price text without a single digit, such as "abc" or "$", reads as 0. */
  lemma ParsePriceWithoutDigits(s: string)
    requires forall i :: 0 <= i < |s| ==> !IsDigit(s[i])
    ensures ParsePriceString(JStr(s)) == Real(0.0)
  {
    StripPriceNoDigits(s);
    ParseFloatWithoutDigits(StripPrice(s));
    ParsePriceOfStripped(s, StripPrice(s));
  }

  lemma NegativeText()
    ensures StripPrice("-$5.00") == DecimalText(true, "5", "00", true) + ""
  {
    assert "-$5.00" == "-" + ("$" + "5.00");
    assert StripPrice("-") == "-";
    assert IsPriceChar("5.00"[0]) && IsPriceChar("5.00"[1]) && IsPriceChar("5.00"[2]) && IsPriceChar("5.00"[3]);
    StripPricePrefix("$", "5.00");
    StripPriceAppend("-", "$" + "5.00");
  }

  lemma NegativeDigits()
    ensures AllDigits("5") && AllDigits("00") && DigitsValue("5" + "00") == 500
  {
    assert "5" + "00" == "500";
    assert "500"[..2] == "50" && "50"[..1] == "5" && "5"[..0] == "";
  }

  /** "-$5.00" is -5: the minus sign in front of the currency is kept. */
  lemma ParsePriceNegative()
    ensures ParsePriceString(JStr("-$5.00")) == Real(-5.0)
  {
    NegativeText();
    NegativeDigits();
    ParsePriceOfDecimal("-$5.00", true, "5", "00", true, "");
    ScaleDownTwo(500.0);
  }

  lemma SecondPointText()
    ensures StripPrice("1.2.3") == DecimalText(false, "1", "2", true) + ".3"
  {
    assert IsPriceChar("1.2.3"[0]) && IsPriceChar("1.2.3"[1]) && IsPriceChar("1.2.3"[2]);
    assert IsPriceChar("1.2.3"[3]) && IsPriceChar("1.2.3"[4]);
    StripPriceKeeps("1.2.3");
  }

  lemma SecondPointDigits()
    ensures AllDigits("1") && AllDigits("2") && DigitsValue("1" + "2") == 12
  {
    assert "1" + "2" == "12";
    assert "12"[..1] == "1" && "1"[..0] == "";
  }

  /** "1.2.3" is 1.2: reading stops at the second point. */
  lemma ParsePriceStopsAtSecondPoint()
    ensures ParsePriceString(JStr("1.2.3")) == Real(1.2)
  {
    SecondPointText();
    SecondPointDigits();
    ParsePriceOfDecimal("1.2.3", false, "1", "2", true, ".3");
    assert Scale(12.0, -1) == 1.2;
  }

  lemma MinusAfterText()
    ensures StripPrice("5-3") == DecimalText(false, "5", "", false) + "-3"
  {
    assert IsPriceChar("5-3"[0]) && IsPriceChar("5-3"[1]) && IsPriceChar("5-3"[2]);
    StripPriceKeeps("5-3");
  }

  lemma MinusAfterDigits()
    ensures AllDigits("5") && AllDigits("") && DigitsValue("5" + "") == 5
  {
    assert "5" + "" == "5";
    assert "5"[..0] == "";
  }

  /** "5-3" is 5: a minus sign after the digits ends the number. */
  lemma ParsePriceStopsAtMinus()
    ensures ParsePriceString(JStr("5-3")) == Real(5.0)
  {
    MinusAfterText();
    MinusAfterDigits();
    ParsePriceOfDecimal("5-3", false, "5", "", false, "-3");
  }

  lemma DollarsText()
    ensures StripPrice("$14.99") == DecimalText(false, "14", "99", true)
  {
    assert "$14.99" == "$" + "14.99";
    assert DecimalText(false, "14", "99", true) == "14.99";
    assert IsPriceChar("14.99"[0]) && IsPriceChar("14.99"[1]) && IsPriceChar("14.99"[2]);
    assert IsPriceChar("14.99"[3]) && IsPriceChar("14.99"[4]);
    StripPricePrefix("$", "14.99");
  }

  lemma DollarsDigits()
    ensures AllDigits("14") && AllDigits("99") && DigitsValue("14" + "99") == 1499
  {
    assert "14" + "99" == "1499";
    assert "1499"[..3] == "149" && "149"[..2] == "14" && "14"[..1] == "1" && "1"[..0] == "";
  }

  /** "$14.99" is 14.99. */
  lemma ParsePriceDollars()
    ensures ParsePriceString(JStr("$14.99")) == Real(14.99)
  {
    DollarsText();
    DollarsDigits();
    assert StripPrice("$14.99") == DecimalText(false, "14", "99", true) + "";
    ParsePriceOfDecimal("$14.99", false, "14", "99", true, "");
    ScaleDownTwo(1499.0);
  }

  lemma CentsText()
    ensures StripPrice("$.99") == DecimalText(false, "", "99", true) + ""
  {
    assert "$.99" == "$" + ".99";
    assert DecimalText(false, "", "99", true) + "" == ".99";
    assert IsPriceChar(".99"[0]) && IsPriceChar(".99"[1]) && IsPriceChar(".99"[2]);
    StripPricePrefix("$", ".99");
  }

  lemma CentsDigits()
    ensures AllDigits("") && AllDigits("99") && DigitsValue("" + "99") == 99
  {
    assert "" + "99" == "99";
    assert "99"[..1] == "9" && "9"[..0] == "";
  }

  /** "$.99" is 0.99: a literal may start at its point. */
  lemma ParsePriceLeadingPoint()
    ensures ParsePriceString(JStr("$.99")) == Real(0.99)
  {
    CentsText();
    CentsDigits();
    ParsePriceOfDecimal("$.99", false, "", "99", true, "");
    ScaleDownTwo(99.0);
  }

  lemma HalfText()
    ensures StripPrice("-.5") == DecimalText(true, "", "5", true) + ""
  {
    assert DecimalText(true, "", "5", true) + "" == "-.5";
    assert IsPriceChar("-.5"[0]) && IsPriceChar("-.5"[1]) && IsPriceChar("-.5"[2]);
    StripPriceKeeps("-.5");
  }

  lemma HalfDigits()
    ensures AllDigits("") && AllDigits("5") && DigitsValue("" + "5") == 5
  {
    assert "" + "5" == "5";
    assert "5"[..0] == "";
  }

  /** "-.5" is -0.5: a sign, then a literal that starts at its point. */
  lemma ParsePriceNegativeLeadingPoint()
    ensures ParsePriceString(JStr("-.5")) == Real(-0.5)
  {
    HalfText();
    HalfDigits();
    ParsePriceOfDecimal("-.5", true, "", "5", true, "");
    assert Scale(5.0, -1) == 0.5;
  }

  lemma ThousandsText()
    ensures StripPrice("1,299") == DecimalText(false, "1299", "", false)
  {
    assert "1,299" == "1" + ",299";
    assert StripPrice("1") == "1";
    assert StripPrice(",299") == "299" by {
      assert ",299"[1..] == "299";
      assert IsPriceChar("299"[0]) && IsPriceChar("299"[1]) && IsPriceChar("299"[2]);
      StripPriceKeeps("299");
    }
    StripPriceAppend("1", ",299");
    assert "1" + "299" == "1299";
    assert DecimalText(false, "1299", "", false) == "1299";
  }

  lemma ThousandsDigits()
    ensures AllDigits("1299") && DigitsValue("1299" + "") == 1299
  {
    assert "1299" + "" == "1299";
    assert "1299"[..3] == "129" && "129"[..2] == "12" && "12"[..1] == "1" && "1"[..0] == "";
  }

  /** "1,299" is 1299: the thousands separator is dropped, not read as a decimal point. */
  lemma ParsePriceThousands()
    ensures ParsePriceString(JStr("1,299")) == Real(1299.0)
  {
    ThousandsText();
    ThousandsDigits();
    assert StripPrice("1,299") == DecimalText(false, "1299", "", false) + "";
    ParsePriceOfDecimal("1,299", false, "1299", "", false, "");
  }

  // --------------------------------------------------------------- totals

  /** Anything but an array, and the empty array, total 0. */
  lemma TotalOfNoItems(items: Json)
    requires !items.JArr? || items.elems == []
    ensures CalculateTotalPrice(items) == Real(0.0)
  {
  }

  /** Folding a concatenation is adding the two folds. */
  lemma {:induction false} SumNumsAppend(a: seq<Num>, b: seq<Num>)
    ensures SumNums(a + b) == NumAdd(SumNums(a), SumNums(b))
  {
    if b == [] {
      assert a + b == a;
    } else {
      var b' := b[..|b| - 1];
      assert (a + b)[..|a + b| - 1] == a + b';
      assert (a + b)[|a + b| - 1] == b[|b| - 1];
      SumNumsAppend(a, b');
    }
  }

  /** Non-negative terms have a non-negative sum. */
  lemma {:induction false} SumNumsNonNegative(ns: seq<Num>)
    requires forall i :: 0 <= i < |ns| ==> ns[i].Real? && ns[i].v >= 0.0
    ensures SumNums(ns).Real? && SumNums(ns).v >= 0.0
  {
    if |ns| > 0 {
      assert forall i :: 0 <= i < |ns| - 1 ==> ns[..|ns| - 1][i] == ns[i];
      SumNumsNonNegative(ns[..|ns| - 1]);
    }
  }

  /** The total of two carts put together is the sum of their totals. */
  lemma TotalOfTwoCarts(a: seq<Json>, b: seq<Json>)
    requires AllLinesReadable(a) && AllLinesReadable(b)
    ensures NoNullItems(JArr(a + b))
    ensures CalculateTotalPrice(JArr(a + b)) == NumAdd(CalculateTotalPrice(JArr(a)), CalculateTotalPrice(JArr(b)))
  {
    assert forall i :: 0 <= i < |a + b| ==> (a + b)[i] == if i < |a| then a[i] else b[i - |a|];
    assert LineTotals(a + b) == LineTotals(a) + LineTotals(b);
    assert CalculateTotalPrice(JArr(a + b)) == SumNums(LineTotals(a + b));
    assert CalculateTotalPrice(JArr(a)) == SumNums(LineTotals(a));
    assert CalculateTotalPrice(JArr(b)) == SumNums(LineTotals(b));
    SumNumsAppend(LineTotals(a), LineTotals(b));
  }

  /** A line whose quantity is missing or unreadable adds nothing, unless its price is NaN. */
  lemma LineWithoutQuantity(item: Json)
    requires !item.JNull? && !item.JUndefined?
    requires !ParseIntJson(Member(item, "quantity")).Real?
    requires ParsePriceString(Member(item, "price")).Real?
    ensures LineTotal(item) == Real(0.0)
  {
  }

  /** A line whose price and quantity are both non-negative numbers. */
  predicate NonNegativeLine(item: Json)
    requires !item.JNull? && !item.JUndefined?
  {
    var p := ParsePriceString(Member(item, "price"));
    var q := QuantityOrZero(item);
    p.Real? && p.v >= 0.0 && q.v >= 0.0
  }

  /** A non-negative line has a non-negative line total. */
  lemma NonNegativeLineTotal(item: Json)
    requires !item.JNull? && !item.JUndefined?
    requires NonNegativeLine(item)
    ensures LineTotal(item).Real? && LineTotal(item).v >= 0.0
  {
    NumMulNonNegative(ParsePriceString(Member(item, "price")), QuantityOrZero(item));
  }

  /** With non-negative lines the cart total is a non-negative number. */
  lemma TotalNonNegative(items: Json)
    requires NoNullItems(items)
    requires items.JArr? ==> forall i :: 0 <= i < |items.elems| ==> NonNegativeLine(items.elems[i])
    ensures CalculateTotalPrice(items).Real? && CalculateTotalPrice(items).v >= 0.0
  {
    if items.JArr? {
      var ts := LineTotals(items.elems);
      forall i | 0 <= i < |ts|
        ensures ts[i].Real? && ts[i].v >= 0.0
      {
        NonNegativeLineTotal(items.elems[i]);
      }
      SumNumsNonNegative(ts);
    }
  }

  lemma NumMulNonNegative(a: Num, b: Num)
    requires a.Real? && b.Real? && a.v >= 0.0 && b.v >= 0.0
    ensures NumMul(a, b).Real? && NumMul(a, b).v >= 0.0
  {
    assert a.v * b.v >= 0.0;
  }

  /** Adding a non-negative rate of tax to a non-negative amount. */
  lemma TaxedAmount(amount: Num, rate: Num)
    requires amount.Real? && rate.Real? && amount.v >= 0.0 && rate.v >= 0.0
    ensures var total := NumAdd(amount, NumMul(amount, rate));
      total.Real? && 0.0 <= amount.v <= total.v && total.v == amount.v * (1.0 + rate.v)
  {
    assert amount.v * rate.v >= 0.0;
  }

  /**
   * With non-negative lines and rate: the subtotal is a non-negative number,
   * the tax is the subtotal times the rate and is non-negative, and the total
   * is subtotal plus tax, so 0 <= subtotal <= total (TaxedAmount gives the
   * total as subtotal * (1 + rate)).
   */
  lemma OrderTotalsBounds(items: Json, taxRate: Num)
    requires NoNullItems(items) && items.JArr?
    requires forall i :: 0 <= i < |items.elems| ==> NonNegativeLine(items.elems[i])
    requires taxRate.Real? && taxRate.v >= 0.0
    ensures var r := CalculateOrderTotals(items, taxRate);
      r.subtotal.Real? && r.tax.Real? && r.total.Real?
      && r.tax == NumMul(r.subtotal, taxRate)
      && 0.0 <= r.subtotal.v <= r.total.v && r.tax.v >= 0.0
      && r.total.v == r.subtotal.v + r.tax.v
  {
    TotalNonNegative(items);
    var r := CalculateOrderTotals(items, taxRate);
    NumMulNonNegative(r.subtotal, taxRate);
  }

  // ----------------------------------------------------------- formatting

  /** The currency, then `toFixed(2)` of the price: `NaN`, or a point and two digits at the end. */
  lemma PriceShape(n: Num, currency: string)
    ensures var f := currency + ToFixed2(n);
      currency <= f
      && (n.NaN? ==> f[|currency|..] == "NaN")
      && (n.Real? ==> |f| >= |currency| + 4 && f[|f| - 3] == '.' && IsDigit(f[|f| - 2]) && IsDigit(f[|f| - 1]))
  {
    var t := ToFixed2(n);
    var f := currency + t;
    assert f[..|currency|] == currency && f[|currency|..] == t;
    if n.Real? {
      assert f[|f| - 3] == t[|t| - 3] && f[|f| - 2] == t[|t| - 2] && f[|f| - 1] == t[|t| - 1];
    }
  }

  /**
   * Reading a formatted price back gives the price rounded to the nearest
   * cent, whenever the currency has no digits, points or minus signs.
   */
  lemma FormatPriceRoundTrip(price: Json, currency: string)
    requires StripPrice(currency) == ""
    requires ParsePriceString(price).Real?
    ensures ParsePriceString(JStr(FormatPrice(price, currency))) == Real(Rounded2(ParsePriceString(price).v))
  {
    var v := ParsePriceString(price).v;
    var t := ToFixed2(Real(v));
    assert StripPrice(currency + t) == t by {
      ToFixed2Digits(v);
      StripPricePrefix(currency, t);
    }
    assert ParseFloat(t) == Real(Rounded2(v)) by {
      ToFixed2RoundTrip(v);
    }
    assert FormatPrice(price, currency) == currency + t;
    ParsePriceOfStripped(currency + t, t);
  }

  /** A price text is read as `parseFloat` reads its price characters, with 0 for NaN and 0. */
  lemma ParsePriceOfStripped(s: string, t: string)
    requires StripPrice(s) == t
    ensures ParsePriceString(JStr(s)) == NumOr(ParseFloat(t), Real(0.0))
  {
  }

  /** `toFixed(2)` writes only digits, a point and possibly a minus sign. */
  lemma ToFixed2Digits(v: real)
    ensures forall i :: 0 <= i < |ToFixed2(Real(v))| ==> IsPriceChar(ToFixed2(Real(v))[i])
  {
    var n := RoundHalfUp(Abs(v) * 100.0);
    DecimalTextPriceChars(v < 0.0, NatToString(DropDigits(n, 2)), PadDigits(n, 2), true);
  }

  /** A number formatted with the default currency reads back rounded to the cent. */
  lemma FormattedAmountReadBack(x: Num)
    requires x.Real?
    ensures ParsePriceString(JStr(FormatPrice(JNum(x), DefaultCurrency))) == Real(Rounded2(x.v))
  {
    assert StripPrice(DefaultCurrency) == "";
    FormatPriceRoundTrip(JNum(x), DefaultCurrency);
  }

  /** Each formatted field reads back as its amount rounded to the cent. */
  lemma OrderTotalsReadBack(items: Json, taxRate: Num)
    requires NoNullItems(items)
    ensures var r := CalculateOrderTotals(items, taxRate);
      (r.subtotal.Real? ==> ParsePriceString(JStr(r.formattedSubtotal)) == Real(Rounded2(r.subtotal.v)))
      && (r.tax.Real? ==> ParsePriceString(JStr(r.formattedTax)) == Real(Rounded2(r.tax.v)))
      && (r.total.Real? ==> ParsePriceString(JStr(r.formattedTotal)) == Real(Rounded2(r.total.v)))
  {
    var r := CalculateOrderTotals(items, taxRate);
    if r.subtotal.Real? {
      FormattedAmountReadBack(r.subtotal);
    }
    if r.tax.Real? {
      FormattedAmountReadBack(r.tax);
    }
    if r.total.Real? {
      FormattedAmountReadBack(r.total);
    }
  }

  /** An amount already in whole cents reads back unchanged. */
  lemma ReadBackExact(v: real)
    requires Rounded2(v) == v
    ensures ParsePriceString(JStr(FormatPrice(JNum(Real(v)), DefaultCurrency))) == Real(v)
  {
    FormattedAmountReadBack(Real(v));
  }

  /** A whole number of cents is formatted and read back without change. */
  lemma FormatCentsExact(cents: int)
    ensures ParsePriceString(JStr(FormatPrice(JNum(Real(cents as real / 100.0)), DefaultCurrency)))
         == Real(cents as real / 100.0)
  {
    ToFixed2Exact(cents);
    ReadBackExact(cents as real / 100.0);
  }
}
