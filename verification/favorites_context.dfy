/**
 * The favourites store (src/context/FavoritesContext.js): the in-memory
 * `favorites` list of books and the `favorites` key.
 */
module Favorites {
  import opened Js
  import opened Storage
  import opened Collections

  const FavoritesKey: string := "favorites"

  class FavoritesContext {
    const store: Store
    var favorites: seq<Obj>

    constructor(store: Store)
      ensures this.store == store && favorites == []
    {
      this.store := store;
      favorites := [];
    }

    /** `isFavorite(bookId)`: some favourite has that id; never so for NaN, an object or an array. */
    predicate IsFavorite(bookId: Json)
      reads this
      ensures IsFavorite(bookId) ==> ComparableId(bookId)
    {
      AnyMatch(favorites, "id", bookId)
    }

    /** `loadFavorites`: a stored list replaces the favourites; a missing or unreadable key leaves them. */
    method LoadFavorites()
      modifies this
      ensures store.ReadList(FavoritesKey).Found? ==> favorites == store.ReadList(FavoritesKey).items
      ensures !store.ReadList(FavoritesKey).Found? ==> favorites == old(favorites)
    {
      var read := store.ReadList(FavoritesKey);
      if read.Found? {
        favorites := read.items;
      }
    }

    /**
     * `addToFavorites(book)`: the book is appended, duplicates included;
     * afterwards it is a favourite unless its id is NaN or an object.
     */
    method AddToFavorites(book: Obj, failure: Option<string>) returns (r: Response<()>)
      modifies this, store
      ensures failure.None? ==> (r.Success? && favorites == old(favorites) + [book]
        && store.data == old(store.data)[FavoritesKey := Items(favorites)]
        && (ComparableId(Prop(book, "id")) ==> IsFavorite(Prop(book, "id"))))
      ensures failure.Some? ==> (r == Failure(failure.value)
        && favorites == old(favorites) && store.data == old(store.data))
    {
      var newFavorites := favorites + [book];
      var err := store.SetItem(FavoritesKey, Items(newFavorites), failure);
      if err.Some? {
        r := Failure(err.value);
      } else {
        AnyMatchAppend(favorites, book, "id");
        favorites := newFavorites;
        r := Success(());
      }
    }

    /** `removeFromFavorites(bookId)`: afterwards the id is no favourite; the others keep their order. */
    method RemoveFromFavorites(bookId: Json, failure: Option<string>) returns (r: Response<()>)
      modifies this, store
      ensures failure.None? ==> (r.Success? && favorites == Without(old(favorites), "id", bookId)
        && store.data == old(store.data)[FavoritesKey := Items(favorites)]
        && !IsFavorite(bookId))
      ensures failure.Some? ==> (r == Failure(failure.value)
        && favorites == old(favorites) && store.data == old(store.data))
    {
      var newFavorites := Without(favorites, "id", bookId);
      var err := store.SetItem(FavoritesKey, Items(newFavorites), failure);
      if err.Some? {
        r := Failure(err.value);
      } else {
        WithoutRemovesAll(favorites, "id", bookId);
        favorites := newFavorites;
        r := Success(());
      }
    }
  }

  /**
   * Adding a book whose id is no favourite yet and then removing that id
   * gives back the favourites as they were before the add.
   */
  lemma AddThenRemove(favorites: seq<Obj>, book: Obj)
    requires ComparableId(Prop(book, "id"))
    requires !AnyMatch(favorites, "id", Prop(book, "id"))
    ensures Without(favorites + [book], "id", Prop(book, "id")) == favorites
  {
    StrictEqIsEquality(Prop(book, "id"), Prop(book, "id"));
    WithoutAppendFresh(favorites, book, "id", Prop(book, "id"));
  }
}
