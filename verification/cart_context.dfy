/**
 * The shopping cart store (src/context/CartContext.js): the in-memory
 * `cartItems` and the `cart` key, rewritten after every change.
 */
module Cart {
  import opened Js
  import opened Storage
  import opened Collections

  const CartKey: string := "cart"

  /** The line `addToCart(book)` appends: `{bookId: book.id, book}`. */
  function CartLine(book: Obj): (line: Obj)
    ensures line.Keys == {"bookId", "book"}
    ensures line["bookId"] == Prop(book, "id") && line["book"] == JObj(book)
  {
    map["bookId" := Prop(book, "id"), "book" := JObj(book)]
  }

  class CartContext {
    const store: Store
    var cartItems: seq<Obj>

    /** The provider starts with an empty cart. */
    constructor(store: Store)
      ensures this.store == store && cartItems == []
    {
      this.store := store;
      cartItems := [];
    }

    /** `loadCartItems`: a stored list replaces the cart; a missing or unreadable key leaves it. */
    method LoadCartItems()
      modifies this
      ensures store.ReadList(CartKey).Found? ==> cartItems == store.ReadList(CartKey).items
      ensures !store.ReadList(CartKey).Found? ==> cartItems == old(cartItems)
    {
      var read := store.ReadList(CartKey);
      if read.Found? {
        cartItems := read.items;
      }
    }

    /** `addToCart(book)`: one more line, even when the book is already in the cart. */
    method AddToCart(book: Obj, failure: Option<string>) returns (r: Response<()>)
      modifies this, store
      ensures failure.None? ==> (r.Success? && cartItems == old(cartItems) + [CartLine(book)]
        && store.data == old(store.data)[CartKey := Items(cartItems)])
      ensures failure.Some? ==> (r == Failure(failure.value)
        && cartItems == old(cartItems) && store.data == old(store.data))
    {
      var newCartItems := cartItems + [CartLine(book)];
      var err := store.SetItem(CartKey, Items(newCartItems), failure);
      if err.Some? {
        r := Failure(err.value);
      } else {
        cartItems := newCartItems;
        r := Success(());
      }
    }

    /** `removeFromCart(bookId)`: every line for that book goes, the rest keep their order. */
    method RemoveFromCart(bookId: Json, failure: Option<string>) returns (r: Response<()>)
      modifies this, store
      ensures failure.None? ==> (r.Success? && cartItems == Without(old(cartItems), "bookId", bookId)
        && store.data == old(store.data)[CartKey := Items(cartItems)])
      ensures failure.Some? ==> (r == Failure(failure.value)
        && cartItems == old(cartItems) && store.data == old(store.data))
    {
      var newCartItems := Without(cartItems, "bookId", bookId);
      var err := store.SetItem(CartKey, Items(newCartItems), failure);
      if err.Some? {
        r := Failure(err.value);
      } else {
        cartItems := newCartItems;
        r := Success(());
      }
    }

    /** `clearCart`: the key is removed and the cart emptied. */
    method ClearCart(failure: Option<string>) returns (r: Response<()>)
      modifies this, store
      ensures failure.None? ==> r.Success? && cartItems == [] && store.data == old(store.data) - {CartKey}
      ensures failure.Some? ==> (r == Failure(failure.value)
        && cartItems == old(cartItems) && store.data == old(store.data))
    {
      var err := store.RemoveItem(CartKey, failure);
      if err.Some? {
        r := Failure(err.value);
      } else {
        cartItems := [];
        r := Success(());
      }
    }
  }

  /**
   * Adding a book whose id is in no line yet and then removing that id
   * gives back the cart as it was before the add.
   */
  lemma AddThenRemove(items: seq<Obj>, book: Obj)
    requires ComparableId(Prop(book, "id"))
    requires !AnyMatch(items, "bookId", Prop(book, "id"))
    ensures Without(items + [CartLine(book)], "bookId", Prop(book, "id")) == items
  {
    StrictEqIsEquality(Prop(book, "id"), Prop(book, "id"));
    assert Matches(CartLine(book), "bookId", Prop(book, "id"));
    WithoutAppendFresh(items, CartLine(book), "bookId", Prop(book, "id"));
  }

  /**
   * Adding a book does not merge with an existing line: the lines for its
   * id grow by exactly one (when the id is `===`-comparable).
   */
  lemma AddDoesNotMerge(items: seq<Obj>, book: Obj)
    requires ComparableId(Prop(book, "id"))
    ensures |Matching(items + [CartLine(book)], "bookId", Prop(book, "id"))|
         == |Matching(items, "bookId", Prop(book, "id"))| + 1
  {
    var id := Prop(book, "id");
    MatchingAppend(items, [CartLine(book)], "bookId", id);
    assert Matches(CartLine(book), "bookId", id);
    assert [CartLine(book)][1..] == [];
  }
}
