/**
 * The order summary (src/screens/OrderSummaryScreen.js): the lines handed
 * over at checkout, their prices, the order totals, and placing the order,
 * which empties the `cart` key.
 */
module OrderSummary {
  import opened Js
  import opened JsNumber
  import opened Storage
  import opened Calculations
  import opened Cart
  import opened CartScreen

  /**
   * `item.price * (item.quantity || 1)`: a line without a quantity (or with
   * a falsy one) is still a number whenever its price is.
   */
  function ItemAmount(item: Obj): (r: Num)
    ensures !Truthy(Prop(item, "quantity")) ==> (r.Real? <==> ToNumber(Prop(item, "price")).Real?)
  {
    NumMul(ToNumber(Prop(item, "price")), ToNumber(Or(Prop(item, "quantity"), JNum(Real(1.0)))))
  }

  /** `formatItemPrice(item)`: the default currency, then the line amount with two fraction digits. */
  function FormatItemPrice(item: Obj): (r: string)
    ensures r == DefaultCurrency + ToFixed2(ItemAmount(item))
  {
    FormatPrice(JNum(ItemAmount(item)), DefaultCurrency)
  }

  class OrderSummaryScreen {
    const store: Store
    /** `route.params.cartItems` */
    const cartItems: seq<Obj>
    var isProcessing: bool

    constructor(store: Store, cartItems: seq<Obj>)
      ensures this.store == store && this.cartItems == cartItems && !isProcessing
    {
      this.store := store;
      this.cartItems := cartItems;
      isProcessing := false;
    }

    /** The totals: `calculateOrderTotals(cartItems)` at the default rate; no lines total 0. */
    function Totals(): (t: OrderTotals)
      ensures cartItems == [] ==> t.subtotal == Real(0.0) && t.tax == Real(0.0) && t.total == Real(0.0)
      ensures t.total.Real? <==> t.subtotal.Real?
    {
      CalculateOrderTotals(AsArray(cartItems), DefaultTaxRate)
    }

    /**
     * Pressing "Place Order": ignored while processing (the button is
     * disabled); otherwise the empty list is written under `cart`, and
     * processing is over afterwards whether or not the write succeeded.
     */
    method HandlePlaceOrder(failure: Option<string>) returns (placed: bool)
      modifies this, store
      ensures old(isProcessing) ==> !placed && isProcessing && store.data == old(store.data)
      ensures !old(isProcessing) ==> !isProcessing && (placed <==> failure.None?)
      ensures !old(isProcessing) && failure.None? ==> store.data == old(store.data)[CartKey := Items([])]
      ensures failure.Some? ==> store.data == old(store.data)
    {
      placed := false;
      if !isProcessing {
        isProcessing := true;
        var err := store.SetItem(CartKey, Items([]), failure);
        placed := err.None?;
        isProcessing := false;
      }
    }
  }

  // ------------------------------------------------------------------ lemmas

  /** A line without a quantity, or with a zero or empty one, is priced as one copy. */
  lemma MissingQuantityCountsOne(item: Obj)
    requires !Truthy(Prop(item, "quantity"))
    requires ToNumber(Prop(item, "price")).Real?
    ensures ItemAmount(item) == ToNumber(Prop(item, "price"))
  {
  }

  /** On a line the cart screen normalised, the summary's amount is the cart's line total and what `calculateTotalPrice` charges. */
  lemma SummaryLineAgrees(item: Obj)
    ensures var n := NormalizeItem(item);
      ItemAmount(n) == ShownLineTotal(n) && ItemAmount(n) == LineTotal(JObj(n)) && ItemAmount(n).Real?
  {
    var n := NormalizeItem(item);
    assert Truthy(Prop(n, "quantity"));
    NormalizedLineAgrees(item);
  }

  /** For a cart the cart screen loaded, the summary's subtotal is the sum of the line amounts it lists, and a number. */
  lemma SummarySubtotal(items: seq<Obj>)
    ensures var lines := NormalizeItems(items);
      NoNullItems(AsArray(lines))
      && CalculateTotalPrice(AsArray(lines)) == SumNums(seq(|lines|, i requires 0 <= i < |lines| => ItemAmount(lines[i])))
      && CalculateTotalPrice(AsArray(lines)).Real?
  {
    SubtotalOfLoadedCart(items);
    AmountsAreShownTotals(items);
  }

  lemma AmountsAreShownTotals(items: seq<Obj>)
    ensures var lines := NormalizeItems(items);
      seq(|lines|, i requires 0 <= i < |lines| => ItemAmount(lines[i]))
        == seq(|lines|, i requires 0 <= i < |lines| => ShownLineTotal(lines[i]))
  {
    var lines := NormalizeItems(items);
    var shown := seq(|lines|, i requires 0 <= i < |lines| => ShownLineTotal(lines[i]));
    var amounts := seq(|lines|, i requires 0 <= i < |lines| => ItemAmount(lines[i]));
    forall i | 0 <= i < |lines|
      ensures amounts[i] == shown[i]
    {
      SummaryLineAgrees(items[i]);
    }
  }
}
