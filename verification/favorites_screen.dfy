/**
 * The favourites list screen (src/screens/FavoritesScreen.js): it keeps its
 * own copy of the `favorites` key and writes that copy back, filtered, when
 * a favourite is removed.
 */
module FavoritesScreen {
  import opened Js
  import opened Storage
  import opened Collections
  import opened Favorites

  class FavoritesScreen {
    const store: Store
    var favorites: seq<Obj>

    constructor(store: Store)
      ensures this.store == store && favorites == []
    {
      this.store := store;
      favorites := [];
    }

    /** `loadFavorites`: a stored list is adopted; a missing or unreadable key leaves the list. */
    method LoadFavorites()
      modifies this
      ensures store.ReadList(FavoritesKey).Found? ==> favorites == store.ReadList(FavoritesKey).items
      ensures !store.ReadList(FavoritesKey).Found? ==> favorites == old(favorites)
    {
      var read := store.ReadList(FavoritesKey);
      if read.Found? {
        favorites := read.items;
      }
    }

    /**
     * `handleRemoveFavorite(bookId)`: the screen's copy, without that id, is
     * written over the key and then shown; on a failed write neither
     * changes and an error alert is raised.
     */
    method HandleRemoveFavorite(bookId: Json, failure: Option<string>) returns (alerted: bool)
      modifies this, store
      ensures alerted <==> failure.Some?
      ensures failure.None? ==>
        (favorites == Without(old(favorites), "id", bookId)
        && store.data == old(store.data)[FavoritesKey := Items(favorites)]
        && !AnyMatch(favorites, "id", bookId))
      ensures failure.Some? ==> favorites == old(favorites) && store.data == old(store.data)
    {
      var updated := Without(favorites, "id", bookId);
      var err := store.SetItem(FavoritesKey, Items(updated), failure);
      if err.Some? {
        alerted := true;
      } else {
        WithoutRemovesAll(favorites, "id", bookId);
        favorites := updated;
        alerted := false;
      }
    }
  }

  // ------------------------------------------------------------------ lemmas

  /**
   * What the screen writes is the filter of its own copy, not of the key: a
   * favourite added elsewhere after the screen loaded is dropped from the
   * key by the next removal, unless the list is reloaded first.
   */
  lemma RemovalDropsUnloadedFavorite(shown: seq<Obj>, added: Obj, bookId: Json)
    requires added !in shown && !Matches(added, "id", bookId)
    ensures added in Without(shown + [added], "id", bookId)
    ensures added !in Without(shown, "id", bookId)
  {
    assert added in shown + [added];
  }

  /** Removing keeps every other favourite, each exactly as often as before. */
  lemma RemovalKeepsOthers(shown: seq<Obj>, bookId: Json)
    ensures multiset(Without(shown, "id", bookId)) + multiset(Matching(shown, "id", bookId)) == multiset(shown)
    ensures forall b :: b in shown && !Matches(b, "id", bookId) ==> b in Without(shown, "id", bookId)
  {
    FiltersPartition(shown, "id", bookId);
  }
}
