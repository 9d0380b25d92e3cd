/**
 * The cart screen (src/screens/CartScreen.js): it reads the `cart` key,
 * turns every line's price and quantity into numbers, shows each line's
 * total and the order totals, and removes lines by `id`.
 */
module CartScreen {
  import opened Js
  import opened JsNumber
  import opened Storage
  import opened Collections
  import opened Calculations
  import Cart
  import BookDetail

  /**
   * The price `loadCartItems` gives a line: a string is read as
   * `parsePriceString` reads it; anything else goes through `parseFloat`,
   * NaN and 0 giving 0. Always a number.
   */
  function NormalizedPrice(price: Json): (r: Num)
    ensures r.Real?
  {
    if price.JStr? then ParsePriceString(price)
    else NumOr(ParseFloatJson(price), Real(0.0))
  }

  /** `parseInt(quantity) || 1`: always a non-zero whole number. */
  function NormalizedQuantity(q: Json): (r: Num)
    ensures r.Real? && r.v != 0.0 && IsIntegral(r.v)
  {
    var n := ParseIntJson(q);
    WholeOrOne(n);
    NumOr(n, Real(1.0))
  }

  /** `n || 1` of a whole number is a non-zero whole number. */
  lemma WholeOrOne(n: Num)
    requires n.Real? ==> IsIntegral(n.v)
    ensures var r := NumOr(n, Real(1.0)); r.Real? && r.v != 0.0 && IsIntegral(r.v)
  {
    WholeIsIntegral(1);
  }

  /** `{...item, price, quantity}` with both fields normalised; every other field kept. */
  function NormalizeItem(item: Obj): (r: Obj)
    ensures r.Keys == item.Keys + {"price", "quantity"}
    ensures r["price"] == JNum(NormalizedPrice(Prop(item, "price")))
    ensures r["quantity"] == JNum(NormalizedQuantity(Prop(item, "quantity")))
    ensures forall k :: k in item && k != "price" && k != "quantity" ==> r[k] == item[k]
  {
    var price := NormalizedPrice(Prop(item, "price"));
    var quantity := NormalizedQuantity(Prop(item, "quantity"));
    OverrideTwo(item, "price", JNum(price), "quantity", JNum(quantity));
    item + map["price" := JNum(price), "quantity" := JNum(quantity)]
  }

  /** `items.map(...)`: one normalised line per stored line, in order. */
  function NormalizeItems(items: seq<Obj>): (r: seq<Obj>)
    ensures |r| == |items|
    ensures forall i :: 0 <= i < |items| ==> r[i] == NormalizeItem(items[i])
  {
    seq(|items|, i requires 0 <= i < |items| => NormalizeItem(items[i]))
  }

  /**
   * `item.price * item.quantity`, the line total the screen shows: a line
   * without a price or without a quantity shows NaN.
   */
  function ShownLineTotal(line: Obj): (r: Num)
    ensures Prop(line, "price").JUndefined? || Prop(line, "quantity").JUndefined? ==> r.NaN?
  {
    NumMul(ToNumber(Prop(line, "price")), ToNumber(Prop(line, "quantity")))
  }

  class CartScreen {
    const store: Store
    var cartItems: seq<Obj>

    constructor(store: Store)
      ensures this.store == store && cartItems == []
    {
      this.store := store;
      cartItems := [];
    }

    /** The footer: `calculateOrderTotals(cartItems)` at the default rate; an empty cart totals 0. */
    function Totals(): (t: OrderTotals)
      reads this
      ensures cartItems == [] ==> t.subtotal == Real(0.0) && t.tax == Real(0.0) && t.total == Real(0.0)
      ensures t.total.Real? <==> t.subtotal.Real?
    {
      CalculateOrderTotals(AsArray(cartItems), DefaultTaxRate)
    }

    /**
     * `loadCartItems`: a stored list replaces the cart, normalised line by
     * line; a missing or unreadable key leaves it.
     */
    method LoadCartItems()
      modifies this
      ensures store.ReadList(Cart.CartKey).Found? ==> cartItems == NormalizeItems(store.ReadList(Cart.CartKey).items)
      ensures !store.ReadList(Cart.CartKey).Found? ==> cartItems == old(cartItems)
    {
      var read := store.ReadList(Cart.CartKey);
      if read.Found? {
        cartItems := NormalizeItems(read.items);
      }
    }

    /**
     * `handleRemoveItem(bookId)`: the cart without the lines of that id is
     * written, and only then shown.
     */
    method HandleRemoveItem(bookId: Json, failure: Option<string>)
      modifies this, store
      ensures failure.None? ==>
        (cartItems == Without(old(cartItems), "id", bookId)
        && store.data == old(store.data)[Cart.CartKey := Items(cartItems)])
      ensures failure.Some? ==> cartItems == old(cartItems) && store.data == old(store.data)
    {
      var updatedCart := Without(cartItems, "id", bookId);
      var err := store.SetItem(Cart.CartKey, Items(updatedCart), failure);
      if err.None? {
        cartItems := updatedCart;
      }
    }

    /** `handleCheckout`: refused for an empty cart, otherwise the current lines go to the order summary. */
    method HandleCheckout() returns (r: Option<seq<Obj>>)
      ensures r.None? <==> cartItems == []
      ensures r.Some? ==> r.value == cartItems
    {
      if |cartItems| == 0 {
        r := None;
      } else {
        r := Some(cartItems);
      }
    }
  }

  // ------------------------------------------------------------------ lemmas

  /**
   * The screen's quantity (default 1) and `calculateTotalPrice`'s (default 0)
   * agree exactly when `parseInt` reads a non-zero number; otherwise the
   * screen counts 1 where the total counts 0.
   */
  lemma QuantityDefaultsAgreeIff(item: Obj)
    ensures NormalizedQuantity(Prop(item, "quantity")) == QuantityOrZero(JObj(item))
        <==> ParseIntJson(Prop(item, "quantity")).Real? && ParseIntJson(Prop(item, "quantity")).v != 0.0
    ensures NormalizedQuantity(Prop(item, "quantity")) != QuantityOrZero(JObj(item)) ==>
      NormalizedQuantity(Prop(item, "quantity")) == Real(1.0) && QuantityOrZero(JObj(item)) == Real(0.0)
  {
  }

  /**
   * The three price normalisations (the cart screen's, the detail screen's
   * and `parsePriceString`) agree on every string and on every number that
   * prints exactly.
   */
  lemma PriceNormalisationsAgree(price: Json)
    requires price.JStr? || (price.JNum? && price.n.Real? && FractionDigits(Abs(price.n.v), 0) < 20)
    ensures NormalizedPrice(price) == ParsePriceString(price)
    ensures BookDetail.BookPrice(price) == JNum(ParsePriceString(price))
  {
    if price.JNum? {
      NumberToStringRoundTrip(price.n.v);
    }
  }

  /** `null`, `undefined`, booleans and objects give 0 on both the cart screen and in `parsePriceString`. */
  lemma PriceOfNonNumeric(price: Json)
    requires price.JNull? || price.JUndefined? || price.JBool? || price.JObj?
    ensures NormalizedPrice(price) == ParsePriceString(price) == Real(0.0)
  {
    var t := ToJsString(price);
    assert t[0] == 'n' || t[0] == 'u' || t[0] == 't' || t[0] == 'f' || t[0] == '[';
    ParseFloatOfWord(t);
  }

  /** NaN is where they part: the screens show 0, `parsePriceString` passes NaN on. */
  lemma PriceOfNaN()
    ensures NormalizedPrice(JNum(NaN)) == Real(0.0)
    ensures BookDetail.BookPrice(JNum(NaN)) == Zero()
    ensures ParsePriceString(JNum(NaN)) == NaN
  {
    assert NumberToString(NaN) == "NaN";
    ParseFloatOfWord("NaN");
  }

  /**
   * An array holding one whole-number text is priced by the cart screen as
   * that number, read through the array's text, but is 0 for `parsePriceString`.
   */
  lemma PriceOfArray(n: nat)
    requires n > 0
    ensures NormalizedPrice(JArr([JStr(NatToString(n))])) == Real(n as real)
    ensures ParsePriceString(JArr([JStr(NatToString(n))])) == Real(0.0)
  {
    var t := NatToString(n);
    SingletonArrayText(t);
    WholeDigitsParse(n);
    NonStringPriceOfText(JArr([JStr(t)]), t, n as real);
  }

  lemma SingletonArrayText(t: string)
    ensures ToJsString(JArr([JStr(t)])) == t
  {
    var es := [JStr(t)];
    assert seq(|es|, i requires 0 <= i < |es| =>
      if es[i].JNull? || es[i].JUndefined? then "" else ToJsString(es[i])) == [t];
  }

  lemma WholeDigitsParse(n: nat)
    ensures ParseFloat(NatToString(n)) == Real(n as real)
  {
    ParseFixedString(false, n, 0);
    assert FixedString(false, n, 0) == "" + (NatToString(n) + "");
    assert FixedString(false, n, 0) == NatToString(n);
    assert FixedValue(false, n, 0) == n as real;
  }

  /** A price that is not a string is read through its text. */
  lemma NonStringPriceOfText(price: Json, t: string, x: real)
    requires !price.JStr? && ToJsString(price) == t && ParseFloat(t) == Real(x) && x != 0.0
    ensures NormalizedPrice(price) == Real(x)
  {
  }

  /** A normalised quantity survives `calculateTotalPrice`'s `parseInt(...) || 0` unchanged. */
  lemma NormalizedQuantityReadsBack(q: Json)
    ensures NumOr(ParseIntJson(JNum(NormalizedQuantity(q))), Real(0.0)) == NormalizedQuantity(q)
  {
    var k := NormalizedQuantity(q).v.Floor;
    ParseIntInteger(k);
  }

  /**
   * On a normalised line, `calculateTotalPrice` charges exactly the total
   * the screen shows, and it is a number.
   */
  lemma NormalizedLineAgrees(item: Obj)
    ensures var n := NormalizeItem(item);
      LineTotal(JObj(n)) == ShownLineTotal(n) && ShownLineTotal(n).Real?
  {
    var n := NormalizeItem(item);
    NormalizedQuantityReadsBack(Prop(item, "quantity"));
    assert Member(JObj(n), "quantity") == JNum(NormalizedQuantity(Prop(item, "quantity")));
    assert QuantityOrZero(JObj(n)) == NormalizedQuantity(Prop(item, "quantity"));
    assert ParsePriceString(Member(JObj(n), "price")) == NormalizedPrice(Prop(item, "price"));
  }

  /**
   * After loading, the footer's subtotal is the sum of the line totals the
   * screen shows, and never NaN: normalisation leaves no NaN line.
   */
  lemma SubtotalOfLoadedCart(items: seq<Obj>)
    ensures var lines := NormalizeItems(items);
      NoNullItems(AsArray(lines))
      && CalculateTotalPrice(AsArray(lines)) == SumNums(seq(|lines|, i requires 0 <= i < |lines| => ShownLineTotal(lines[i])))
      && CalculateTotalPrice(AsArray(lines)).Real?
  {
    var lines := NormalizeItems(items);
    var a := AsArray(lines);
    var shown := seq(|lines|, i requires 0 <= i < |lines| => ShownLineTotal(lines[i]));
    forall i | 0 <= i < |lines|
      ensures LineTotal(a.elems[i]) == shown[i] && shown[i].Real?
    {
      LineAgreesAt(items, i);
    }
    TotalOfShownLines(a, shown);
  }

  lemma LineAgreesAt(items: seq<Obj>, i: nat)
    requires i < |items|
    ensures var lines := NormalizeItems(items);
      LineTotal(AsArray(lines).elems[i]) == ShownLineTotal(lines[i]) && ShownLineTotal(lines[i]).Real?
  {
    NormalizedLineAgrees(items[i]);
  }

  lemma TotalOfShownLines(a: Json, shown: seq<Num>)
    requires a.JArr? && AllLinesReadable(a.elems) && |shown| == |a.elems|
    requires forall i :: 0 <= i < |shown| ==> LineTotal(a.elems[i]) == shown[i]
    ensures NoNullItems(a) && CalculateTotalPrice(a) == SumNums(shown)
  {
    var totals := LineTotals(a.elems);
    forall i | 0 <= i < |shown|
      ensures totals[i] == shown[i]
    {
    }
    assert totals == shown;
  }
}
