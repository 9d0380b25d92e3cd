/**
 * The book detail screen (src/screens/BookDetailScreen.js): the displayed
 * price, the favourite flag, the in-cart flag and the quantity stepper, and
 * the handlers that rewrite the `favorites` and `cart` keys directly. Its
 * cart lines are `{...book, quantity}` keyed by `id`, not the
 * `{bookId, book}` lines of the cart store.
 */
module BookDetail {
  import opened Js
  import opened JsNumber
  import opened Storage
  import opened Collections
  import Calculations
  import Cart
  import Favorites

  /**
   * `bookPrice`: a string price is read the way `parsePriceString` reads it;
   * any other price is kept unless it is falsy, which gives 0.
   */
  function BookPrice(price: Json): (r: Json)
    ensures price.JStr? ==> r == JNum(Calculations.ParsePriceString(price))
    ensures !price.JStr? && Truthy(price) ==> r == price
    ensures !price.JStr? && !Truthy(price) ==> r == Zero()
  {
    if price.JStr? then
      var n := NumOr(ParseFloat(Calculations.StripPrice(price.s)), Real(0.0));
      assert n == Calculations.ParsePriceString(price);
      JNum(n)
    else Or(price, Zero())
  }

  /** `Math.max(1, quantity - 1)`: never below 1, NaN stays NaN. */
  function Decrement(q: Json): (r: Num)
    ensures r.Real? <==> ToNumber(q).Real?
    ensures r.Real? ==> r.v >= 1.0
    ensures ToNumber(q).Real? && ToNumber(q).v >= 2.0 ==> r == Real(ToNumber(q).v - 1.0)
    ensures ToNumber(q).Real? && ToNumber(q).v <= 2.0 ==> r == Real(1.0)
  {
    match ToNumber(q)
    case NaN => NaN
    case Real(x) => Real(if x - 1.0 < 1.0 then 1.0 else x - 1.0)
  }

  /** `quantity + 1`: one more for a number, the text with `1` appended for text. */
  function Increment(q: Json): (r: Json)
    ensures q.JNum? ==> r == JNum(NumAdd(q.n, Real(1.0)))
    ensures q.JStr? ==> r == JStr(q.s + "1")
  {
    WholeNumberText(1);
    assert NatToString(1) == "1";
    JsPlus(q, JNum(Real(1.0)))
  }

  /**
   * The cart `addToCart` writes: the first line with the book's id gets the
   * selected quantity added to its own (`+=`); with no such line the book is
   * appended with the selected quantity.
   */
  function MergeIntoCart(lines: seq<Obj>, book: Obj, quantity: Json): (r: seq<Obj>)
    ensures match FindFirst(lines, "id", Prop(book, "id"))
      case Some(i) =>
        |r| == |lines|
        && r[i] == lines[i]["quantity" := JsPlus(Prop(lines[i], "quantity"), quantity)]
        && (forall j :: 0 <= j < |lines| && j != i ==> r[j] == lines[j])
      case None => r == lines + [book["quantity" := quantity]]
  {
    match FindFirst(lines, "id", Prop(book, "id"))
    case Some(i) => lines[i := lines[i]["quantity" := JsPlus(Prop(lines[i], "quantity"), quantity)]]
    case None => lines + [book["quantity" := quantity]]
  }

  class BookDetailScreen {
    const store: Store
    const book: Obj
    var isFavorite: bool
    var quantity: Json
    var isInCart: bool

    constructor(store: Store, book: Obj)
      ensures this.store == store && this.book == book
      ensures !isFavorite && quantity == JNum(Real(1.0)) && !isInCart
    {
      this.store := store;
      this.book := book;
      isFavorite := false;
      quantity := JNum(Real(1.0));
      isInCart := false;
    }

    /** `checkFavoriteStatus`: the flag becomes whether some stored favourite has the book's id. */
    method CheckFavoriteStatus()
      modifies this
      ensures quantity == old(quantity) && isInCart == old(isInCart)
      ensures match store.ReadList(Favorites.FavoritesKey)
        case Found(favs) => isFavorite == AnyMatch(favs, "id", Prop(book, "id"))
        case _ => isFavorite == old(isFavorite)
    {
      var read := store.ReadList(Favorites.FavoritesKey);
      if read.Found? {
        isFavorite := AnyMatch(read.items, "id", Prop(book, "id"));
      }
    }

    /**
     * `checkCartStatus`: the in-cart flag becomes whether some stored line
     * has the book's id, and the stepper adopts that line's quantity.
     */
    method CheckCartStatus()
      modifies this
      ensures isFavorite == old(isFavorite)
      ensures match store.ReadList(Cart.CartKey)
        case Found(lines) =>
          isInCart == AnyMatch(lines, "id", Prop(book, "id"))
          && (match FindFirst(lines, "id", Prop(book, "id"))
              case Some(i) => quantity == Prop(lines[i], "quantity")
              case None => quantity == old(quantity))
        case _ => isInCart == old(isInCart) && quantity == old(quantity)
    {
      var read := store.ReadList(Cart.CartKey);
      if read.Found? {
        var cartItem := FindFirst(read.items, "id", Prop(book, "id"));
        FindFirstIffAny(read.items, "id", Prop(book, "id"));
        isInCart := cartItem.Some?;
        if cartItem.Some? {
          quantity := Prop(read.items[cartItem.value], "quantity");
        }
      }
    }

    /** The minus button. */
    method StepDown()
      modifies this
      ensures isFavorite == old(isFavorite) && isInCart == old(isInCart)
      ensures quantity == JNum(Decrement(old(quantity)))
    {
      quantity := JNum(Decrement(quantity));
    }

    /** The plus button. */
    method StepUp()
      modifies this
      ensures isFavorite == old(isFavorite) && isInCart == old(isInCart)
      ensures quantity == Increment(old(quantity))
    {
      quantity := Increment(quantity);
    }

    /**
     * `toggleFavorite`: a favourite is filtered out of the stored list,
     * anything else is appended to it; the flag flips once the write has
     * succeeded. An unreadable list or a failed write changes nothing.
     */
    method ToggleFavorite(failure: Option<string>)
      modifies this, store
      ensures quantity == old(quantity) && isInCart == old(isInCart)
      ensures match ListOrEmpty(old(store.ReadList(Favorites.FavoritesKey)))
        case None => isFavorite == old(isFavorite) && store.data == old(store.data)
        case Some(favs) =>
          if failure.Some? then isFavorite == old(isFavorite) && store.data == old(store.data)
          else
            isFavorite == !old(isFavorite)
            && store.data == old(store.data)[Favorites.FavoritesKey :=
                 Items(if old(isFavorite) then Without(favs, "id", Prop(book, "id")) else favs + [book])]
    {
      var favorites := ListOrEmpty(store.ReadList(Favorites.FavoritesKey));
      if favorites.Some? {
        var favoritesArray := favorites.value;
        if isFavorite {
          favoritesArray := Without(favoritesArray, "id", Prop(book, "id"));
        } else {
          favoritesArray := favoritesArray + [book];
        }
        var err := store.SetItem(Favorites.FavoritesKey, Items(favoritesArray), failure);
        if err.None? {
          isFavorite := !isFavorite;
        }
      }
    }

    /**
     * `addToCart`: the selected quantity is merged into the book's line or a
     * new line is appended; the flag is set once the write has succeeded.
     */
    method AddToCart(failure: Option<string>)
      modifies this, store
      ensures quantity == old(quantity) && isFavorite == old(isFavorite)
      ensures match ListOrEmpty(old(store.ReadList(Cart.CartKey)))
        case None => isInCart == old(isInCart) && store.data == old(store.data)
        case Some(lines) =>
          if failure.Some? then isInCart == old(isInCart) && store.data == old(store.data)
          else
            isInCart
            && store.data == old(store.data)[Cart.CartKey := Items(MergeIntoCart(lines, book, quantity))]
    {
      var cart := ListOrEmpty(store.ReadList(Cart.CartKey));
      if cart.Some? {
        var cartArray := cart.value;
        var existingItem := FindFirst(cartArray, "id", Prop(book, "id"));
        if existingItem.Some? {
          var i := existingItem.value;
          cartArray := cartArray[i := cartArray[i]["quantity" := JsPlus(Prop(cartArray[i], "quantity"), quantity)]];
        } else {
          cartArray := cartArray + [book["quantity" := quantity]];
        }
        var err := store.SetItem(Cart.CartKey, Items(cartArray), failure);
        if err.None? {
          isInCart := true;
        }
      }
    }

    /**
     * `removeFromCart`: every line with the book's id is filtered out of a
     * stored cart; with no stored cart nothing is written.
     */
    method RemoveFromCart(failure: Option<string>)
      modifies this, store
      ensures quantity == old(quantity) && isFavorite == old(isFavorite)
      ensures match old(store.ReadList(Cart.CartKey))
        case Found(lines) =>
          if failure.Some? then isInCart == old(isInCart) && store.data == old(store.data)
          else
            !isInCart
            && store.data == old(store.data)[Cart.CartKey := Items(Without(lines, "id", Prop(book, "id")))]
        case _ => isInCart == old(isInCart) && store.data == old(store.data)
    {
      var read := store.ReadList(Cart.CartKey);
      if read.Found? {
        var updatedCart := Without(read.items, "id", Prop(book, "id"));
        var err := store.SetItem(Cart.CartKey, Items(updatedCart), failure);
        if err.None? {
          isInCart := false;
        }
      }
    }
  }

  // ------------------------------------------------------------------ lemmas

  /**
   * The detail screen and `parsePriceString` read a string price the same
   * way, and a number or a falsy value the same way unless it is NaN, which
   * the screen shows as 0.
   */
  lemma BookPriceAgrees(price: Json)
    requires price.JStr? || !Truthy(price) || (price.JNum? && price.n.Real?)
    ensures price != JNum(NaN) ==> BookPrice(price) == JNum(Calculations.ParsePriceString(price))
    ensures price == JNum(NaN) ==> BookPrice(price) == Zero() && Calculations.ParsePriceString(price) == NaN
  {
  }

  /** A truthy value that is neither a number nor a string is shown as it is, where `parsePriceString` gives 0. */
  lemma BookPriceKeepsOtherValues(price: Json)
    requires !price.JStr? && !price.JNum? && Truthy(price)
    ensures BookPrice(price) == price && Calculations.ParsePriceString(price) == Real(0.0)
  {
  }

  /** From any numeric quantity of at least 1, both buttons keep it at least 1; plus adds exactly 1. */
  lemma StepperKeepsAtLeastOne(x: real)
    requires x >= 1.0
    ensures Decrement(JNum(Real(x))).Real? && Decrement(JNum(Real(x))).v >= 1.0
    ensures Increment(JNum(Real(x))) == JNum(Real(x + 1.0))
  {
  }

  /** A quantity held as text is extended by the plus button, not incremented: `"2" + 1` is `"21"`. */
  lemma StepUpOnText()
    ensures Increment(JStr("2")) == JStr("21")
  {
    WholeNumberText(1);
    assert NatToString(1) == "1";
  }

  /** The lines of a list have pairwise different keys under `===`. */
  predicate UniqueKeys(xs: seq<Obj>, f: string)
  {
    forall i, j :: 0 <= i < j < |xs| ==> !Matches(xs[j], f, Prop(xs[i], f))
  }

  /** Merging adds a line only when the book has none, and keeps at most one line per id. */
  lemma MergeKeepsOneLinePerId(lines: seq<Obj>, book: Obj, quantity: Json)
    requires UniqueKeys(lines, "id")
    ensures var r := MergeIntoCart(lines, book, quantity);
      UniqueKeys(r, "id")
      && |r| == |lines| + (if AnyMatch(lines, "id", Prop(book, "id")) then 0 else 1)
  {
    var id := Prop(book, "id");
    var r := MergeIntoCart(lines, book, quantity);
    FindFirstIffAny(lines, "id", id);
    match FindFirst(lines, "id", id)
    case Some(i) =>
      assert forall k :: 0 <= k < |r| ==> Prop(r[k], "id") == Prop(lines[k], "id");
    case None =>
      forall i, j | 0 <= i < j < |r|
        ensures !Matches(r[j], "id", Prop(r[i], "id"))
      {
        if j == |lines| {
          assert r[i] == lines[i] && Prop(r[j], "id") == id;
          assert !Matches(lines[i], "id", id);
          StrictEqIsEquality(Prop(lines[i], "id"), id);
          StrictEqIsEquality(id, Prop(lines[i], "id"));
        } else {
          assert r[i] == lines[i] && r[j] == lines[j];
        }
      }
  }

  /** Adding to a line that holds a numeric quantity adds the selected numeric quantity to it. */
  lemma MergeAddsQuantity(lines: seq<Obj>, book: Obj, q: Num, i: nat)
    requires FindFirst(lines, "id", Prop(book, "id")) == Some(i)
    requires Prop(lines[i], "quantity").JNum?
    ensures Prop(MergeIntoCart(lines, book, JNum(q))[i], "quantity") == JNum(NumAdd(Prop(lines[i], "quantity").n, q))
  {
  }

  /**
   * A `{bookId, book}` line written by the cart store has no `id`, so the
   * detail screen never merges into it: for a book with an id, a cart that
   * holds only such lines gets a new line appended.
   */
  lemma StoreLinesAreNeverMerged(items: seq<Obj>, book: Obj, quantity: Json)
    requires Prop(book, "id") != JUndefined
    requires forall k :: 0 <= k < |items| ==> exists b :: items[k] == Cart.CartLine(b)
    ensures MergeIntoCart(items, book, quantity) == items + [book["quantity" := quantity]]
  {
    forall k | 0 <= k < |items|
      ensures !Matches(items[k], "id", Prop(book, "id"))
    {
      var b :| items[k] == Cart.CartLine(b);
      assert "id" !in items[k];
    }
    FindFirstIffAny(items, "id", Prop(book, "id"));
  }
}
