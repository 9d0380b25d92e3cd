/**
 * The "my books" management screen (src/screens/BookManagementScreen.js):
 * marking a posted book sold or active again, and deleting it once the
 * user confirms, both through the posted-books store, with a loading flag
 * around each call.
 */
module BookManagement {
  import opened Js
  import opened Storage
  import opened Collections
  import opened Books

  /** `book.status === 'active' ? 'sold' : 'active'` */
  function NextStatus(status: Json): (r: string)
    ensures r == "sold" <==> status == JStr("active")
    ensures r == "active" <==> status != JStr("active")
  {
    if StrictEq(status, JStr("active")) then "sold" else "active"
  }

  /** The fields a status change sends: the status alone. */
  function StatusPatch(status: Json): (p: Obj)
    ensures p.Keys == {"status"} && p["status"] == JStr(NextStatus(status))
  {
    map["status" := JStr(NextStatus(status))]
  }

  class BookManagementScreen {
    const books: BookContext
    var loading: bool

    constructor(books: BookContext)
      ensures this.books == books && !loading
    {
      this.books := books;
      loading := false;
    }

    /**
     * `handleStatusChange(book)`: `updateBook(book.id, {status})` with the
     * toggled status; an error alert when it fails; not loading afterwards.
     */
    method HandleStatusChange(book: Obj, failure: Option<string>) returns (alerted: bool)
      modifies this, books, books.store
      ensures !loading
      ensures books.user == old(books.user) && books.exchangeHistory == old(books.exchangeHistory)
      ensures !alerted <==> old(books.StoredBooks()).Some? && failure.None?
      ensures !alerted ==>
        (books.myBooks == MergeWhere(old(books.myBooks), "id", Prop(book, "id"), StatusPatch(Prop(book, "status")))
        && books.store.data == old(books.store.data)[PostedBooksKey :=
             Items(MergeWhere(old(books.StoredBooks()).value, "id", Prop(book, "id"), StatusPatch(Prop(book, "status"))))])
      ensures alerted ==> books.myBooks == old(books.myBooks) && books.store.data == old(books.store.data)
    {
      loading := true;
      var result := books.UpdateBook(Prop(book, "id"), StatusPatch(Prop(book, "status")), failure);
      alerted := !result.Success?;
      loading := false;
    }

    /**
     * `handleDelete(bookId)`: nothing unless the user confirms; then
     * `deleteBook(bookId)`, an error alert when it fails, and not loading
     * afterwards.
     */
    method HandleDelete(bookId: Json, confirmed: bool, failure: Option<string>) returns (alerted: bool)
      modifies this, books, books.store
      ensures loading == (old(loading) && !confirmed)
      ensures books.user == old(books.user) && books.exchangeHistory == old(books.exchangeHistory)
      ensures !confirmed ==> !alerted && books.myBooks == old(books.myBooks) && books.store.data == old(books.store.data)
      ensures confirmed ==> (!alerted <==> old(books.StoredBooks()).Some? && failure.None?)
      ensures confirmed && !alerted ==>
        (books.myBooks == Without(old(books.myBooks), "id", bookId)
        && books.store.data == old(books.store.data)[PostedBooksKey := Items(Without(old(books.StoredBooks()).value, "id", bookId))])
      ensures alerted ==> books.myBooks == old(books.myBooks) && books.store.data == old(books.store.data)
    {
      alerted := false;
      if confirmed {
        loading := true;
        var result := books.DeleteBook(bookId, failure);
        alerted := !result.Success?;
        loading := false;
      }
    }
  }

  // ------------------------------------------------------------------ lemmas

  /** Toggling twice returns an active or sold book to its status. */
  lemma ToggleTwice(status: string)
    requires status == "active" || status == "sold"
    ensures NextStatus(JStr(NextStatus(JStr(status)))) == status
  {
  }

  /**
   * A status change touches no other field: every book keeps its fields,
   * and the matching ones only get `status` set.
   */
  lemma StatusChangeOnlyStatus(xs: seq<Obj>, id: Json, status: Json)
    ensures var r := MergeWhere(xs, "id", id, StatusPatch(status));
      |r| == |xs|
      && (forall i, k :: 0 <= i < |xs| && k in xs[i] && k != "status" ==> k in r[i] && r[i][k] == xs[i][k])
      && (forall i :: 0 <= i < |xs| && Matches(xs[i], "id", id) ==>
            (r[i].Keys == xs[i].Keys + {"status"} && r[i]["status"] == JStr(NextStatus(status))))
  {
  }
}
