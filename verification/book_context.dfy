/**
 * The posted-books store (src/context/BookContext.js): the `postedBooks` key
 * holds every user's books; `myBooks` is the signed-in user's view of it and
 * `exchangeHistory` theirs of the `exchangeHistory` key.
 */
module Books {
  import opened Js
  import opened Storage
  import opened Collections

  const PostedBooksKey: string := "postedBooks"
  const ExchangeHistoryKey: string := "exchangeHistory"

  /**
   * The record `postBook` stores: the caller's fields, then a fresh id, the
   * owner, the creation time and the status 'active', which override any
   * caller-supplied values of the same names.
   */
  function NewBook(bookData: Obj, id: string, userId: Json, createdAt: string): (b: Obj)
    ensures b.Keys == bookData.Keys + {"id", "userId", "createdAt", "status"}
    ensures b["id"] == JStr(id) && b["userId"] == userId
    ensures b["createdAt"] == JStr(createdAt) && b["status"] == JStr("active")
    ensures forall k :: k in bookData && k != "id" && k != "userId" && k != "createdAt" && k != "status" ==> b[k] == bookData[k]
  {
    bookData + map["id" := JStr(id), "userId" := userId, "createdAt" := JStr(createdAt), "status" := JStr("active")]
  }

  /**
   * `records.filter(r => r.userId === user.id)`: with no user signed in,
   * `user.id` throws as soon as there is a record to test.
   */
  function OwnedBy(records: seq<Obj>, user: Option<Obj>): (r: Option<seq<Obj>>)
    ensures user.None? ==> (r.Some? <==> records == [])
    ensures user.Some? ==> r == Some(Matching(records, "userId", Prop(user.value, "id")))
  {
    if user.Some? then Some(Matching(records, "userId", Prop(user.value, "id")))
    else if records == [] then Some([])
    else None
  }

  class BookContext {
    const store: Store
    var user: Option<Obj>
    var myBooks: seq<Obj>
    var exchangeHistory: seq<Obj>
    var loading: bool
    var error: Option<string>

    constructor(store: Store, user: Option<Obj>)
      ensures this.store == store && this.user == user
      ensures myBooks == [] && exchangeHistory == [] && !loading && error.None?
    {
      this.store := store;
      this.user := user;
      myBooks := [];
      exchangeHistory := [];
      loading := false;
      error := None;
    }

    /**
     * The list `postBook`, `updateBook` and `deleteBook` start from: the
     * empty list when the key is missing, the stored list, or `None` when
     * reading it throws.
     */
    function StoredBooks(): (r: Option<seq<Obj>>)
      reads store
      ensures PostedBooksKey !in store.data ==> r == Some([])
      ensures r.None? <==> PostedBooksKey in store.data && !store.data[PostedBooksKey].Items?
      ensures r.Some? && PostedBooksKey in store.data ==> store.data[PostedBooksKey] == Items(r.value)
    {
      ListOrEmpty(store.ReadList(PostedBooksKey))
    }

    /**
     * `fetchMyBooks`: the view becomes exactly the stored books whose
     * `userId` is the user's id, in stored order; a missing key changes
     * nothing; an unreadable list sets the error and keeps the view.
     */
    method FetchMyBooks()
      modifies this
      ensures user == old(user) && exchangeHistory == old(exchangeHistory) && !loading
      ensures match store.ReadList(PostedBooksKey)
        case Absent => myBooks == old(myBooks) && error == old(error)
        case Unreadable => myBooks == old(myBooks) && error == Some("Failed to fetch books")
        case Found(books) =>
          match OwnedBy(books, user)
          case Some(mine) => myBooks == mine && error == old(error)
          case None => myBooks == old(myBooks) && error == Some("Failed to fetch books")
    {
      loading := true;
      var read := store.ReadList(PostedBooksKey);
      match read {
        case Absent =>
        case Unreadable =>
          error := Some("Failed to fetch books");
        case Found(books) =>
          var mine := OwnedBy(books, user);
          if mine.Some? {
            myBooks := mine.value;
          } else {
            error := Some("Failed to fetch books");
          }
      }
      loading := false;
    }

    /** `fetchExchangeHistory`: the same filter over the `exchangeHistory` key. */
    method FetchExchangeHistory()
      modifies this
      ensures user == old(user) && myBooks == old(myBooks) && !loading
      ensures match store.ReadList(ExchangeHistoryKey)
        case Absent => exchangeHistory == old(exchangeHistory) && error == old(error)
        case Unreadable => exchangeHistory == old(exchangeHistory) && error == Some("Failed to fetch exchange history")
        case Found(records) =>
          match OwnedBy(records, user)
          case Some(mine) => exchangeHistory == mine && error == old(error)
          case None => exchangeHistory == old(exchangeHistory) && error == Some("Failed to fetch exchange history")
    {
      loading := true;
      var read := store.ReadList(ExchangeHistoryKey);
      match read {
        case Absent =>
        case Unreadable =>
          error := Some("Failed to fetch exchange history");
        case Found(records) =>
          var mine := OwnedBy(records, user);
          if mine.Some? {
            exchangeHistory := mine.value;
          } else {
            error := Some("Failed to fetch exchange history");
          }
      }
      loading := false;
    }

    /** `refreshData`: both views fetched again, the books first. */
    method RefreshData()
      modifies this
      ensures user == old(user) && !loading
      ensures match store.ReadList(PostedBooksKey)
        case Found(books) =>
          if OwnedBy(books, user).Some? then myBooks == OwnedBy(books, user).value else myBooks == old(myBooks)
        case _ => myBooks == old(myBooks)
      ensures match store.ReadList(ExchangeHistoryKey)
        case Found(records) =>
          if OwnedBy(records, user).Some? then exchangeHistory == OwnedBy(records, user).value
          else exchangeHistory == old(exchangeHistory)
        case _ => exchangeHistory == old(exchangeHistory)
    {
      FetchMyBooks();
      FetchExchangeHistory();
    }

    /**
     * `postBook(bookData)`: one new record appended to the stored list and,
     * once the write has succeeded, to the view. Any throw (an unreadable
     * list, no signed-in user, a failed write) changes neither.
     */
    method PostBook(bookData: Obj, id: string, createdAt: string, failure: Option<string>) returns (r: Response<Obj>)
      modifies this, store
      ensures user == old(user) && exchangeHistory == old(exchangeHistory) && !loading
      ensures r.Success? <==> old(StoredBooks()).Some? && user.Some? && failure.None?
      ensures r.Success? ==>
        r.data == NewBook(bookData, id, Prop(user.value, "id"), createdAt)
        && store.data == old(store.data)[PostedBooksKey := Items(old(StoredBooks()).value + [r.data])]
        && myBooks == old(myBooks) + [r.data] && error == old(error)
      ensures r.Failure? ==>
        r.error == "Failed to post book" && error == Some("Failed to post book")
        && store.data == old(store.data) && myBooks == old(myBooks)
    {
      loading := true;
      var existing := StoredBooks();
      if existing.None? || user.None? {
        error := Some("Failed to post book");
        r := Failure("Failed to post book");
      } else {
        var newBook := NewBook(bookData, id, Prop(user.value, "id"), createdAt);
        var err := store.SetItem(PostedBooksKey, Items(existing.value + [newBook]), failure);
        if err.Some? {
          error := Some("Failed to post book");
          r := Failure("Failed to post book");
        } else {
          myBooks := myBooks + [newBook];
          r := Success(newBook);
        }
      }
      loading := false;
    }

    /**
     * `updateBook(bookId, bookData)`: every record with that id, in storage
     * and then in the view, gets the given fields merged over its own.
     */
    method UpdateBook(bookId: Json, bookData: Obj, failure: Option<string>) returns (r: Response<()>)
      modifies this, store
      ensures user == old(user) && exchangeHistory == old(exchangeHistory) && !loading
      ensures r.Success? <==> old(StoredBooks()).Some? && failure.None?
      ensures r.Success? ==>
        store.data == old(store.data)[PostedBooksKey := Items(MergeWhere(old(StoredBooks()).value, "id", bookId, bookData))]
        && myBooks == MergeWhere(old(myBooks), "id", bookId, bookData) && error == old(error)
      ensures r.Failure? ==>
        r.error == "Failed to update book" && error == Some("Failed to update book")
        && store.data == old(store.data) && myBooks == old(myBooks)
    {
      loading := true;
      var existing := StoredBooks();
      if existing.None? {
        error := Some("Failed to update book");
        r := Failure("Failed to update book");
      } else {
        var updated := MergeWhere(existing.value, "id", bookId, bookData);
        var err := store.SetItem(PostedBooksKey, Items(updated), failure);
        if err.Some? {
          error := Some("Failed to update book");
          r := Failure("Failed to update book");
        } else {
          myBooks := MergeWhere(myBooks, "id", bookId, bookData);
          r := Success(());
        }
      }
      loading := false;
    }

    /**
     * `deleteBook(bookId)`: every record with that id leaves storage and then
     * the view; the others keep their order.
     */
    method DeleteBook(bookId: Json, failure: Option<string>) returns (r: Response<()>)
      modifies this, store
      ensures user == old(user) && exchangeHistory == old(exchangeHistory) && !loading
      ensures r.Success? <==> old(StoredBooks()).Some? && failure.None?
      ensures r.Success? ==>
        store.data == old(store.data)[PostedBooksKey := Items(Without(old(StoredBooks()).value, "id", bookId))]
        && myBooks == Without(old(myBooks), "id", bookId) && error == old(error)
      ensures r.Failure? ==>
        r.error == "Failed to delete book" && error == Some("Failed to delete book")
        && store.data == old(store.data) && myBooks == old(myBooks)
    {
      loading := true;
      var existing := StoredBooks();
      if existing.None? {
        error := Some("Failed to delete book");
        r := Failure("Failed to delete book");
      } else {
        var updated := Without(existing.value, "id", bookId);
        var err := store.SetItem(PostedBooksKey, Items(updated), failure);
        if err.Some? {
          error := Some("Failed to delete book");
          r := Failure("Failed to delete book");
        } else {
          myBooks := Without(myBooks, "id", bookId);
          r := Success(());
        }
      }
      loading := false;
    }
  }

  // ------------------------------------------------------------------ lemmas

  /** The view `fetchMyBooks` builds holds only the user's books, and all of them. */
  lemma OwnedByExactly(records: seq<Obj>, u: Obj)
    ensures var r := OwnedBy(records, Some(u)).value;
      IsSubsequence(r, records)
      && (forall b :: b in r <==> b in records && StrictEq(Prop(b, "userId"), Prop(u, "id")))
  {
  }

  /** A posted book belongs to its poster: fetching afterwards finds it, as long as the user id is a `===`-comparable value. */
  lemma PostedBookIsOwned(existing: seq<Obj>, bookData: Obj, id: string, u: Obj, createdAt: string)
    requires ComparableId(Prop(u, "id"))
    ensures var b := NewBook(bookData, id, Prop(u, "id"), createdAt);
      b in OwnedBy(existing + [b], Some(u)).value
  {
    var b := NewBook(bookData, id, Prop(u, "id"), createdAt);
    assert b in existing + [b];
    assert Prop(b, "userId") == Prop(u, "id");
  }

  /**
   * Posting a book under a fresh id and then deleting that id leaves the
   * list as it was before the post; this holds for the stored list and for
   * the view alike.
   */
  lemma PostThenDelete(existing: seq<Obj>, bookData: Obj, id: string, userId: Json, createdAt: string)
    requires !AnyMatch(existing, "id", JStr(id))
    ensures Without(existing + [NewBook(bookData, id, userId, createdAt)], "id", JStr(id)) == existing
  {
    var b := NewBook(bookData, id, userId, createdAt);
    assert Prop(b, "id") == JStr(id);
    WithoutAppendFresh(existing, b, "id", JStr(id));
  }

  /** Updating or deleting an id that no stored book has rewrites the same list. */
  lemma AbsentIdKeepsList(books: seq<Obj>, bookId: Json, bookData: Obj)
    requires !AnyMatch(books, "id", bookId)
    ensures MergeWhere(books, "id", bookId, bookData) == books
    ensures Without(books, "id", bookId) == books
  {
    MergeAbsent(books, "id", bookId, bookData);
    WithoutAbsent(books, "id", bookId);
  }
}
