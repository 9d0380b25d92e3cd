/**
 * The post / edit book form (src/screens/PostBookScreen.js): six form
 * fields, prefilled from the book being edited, checked for blanks and then
 * sent to the posted-books store as a new book or as an update.
 */
module PostBook {
  import opened Js
  import opened JsNumber
  import opened Storage
  import opened Collections
  import opened Books

  /** The category picker's choices, `Fiction` being the initial one. */
  const Categories: seq<string> := ["Fiction", "Non-Fiction", "Science", "Technology", "Art & Design", "Business"]

  /** What `!field.trim()` does with a form field: it is blank, it is filled, or it is no string and `trim` throws. */
  datatype Check = Blank | Filled | Throws

  function FieldCheck(v: Json): (c: Check)
    ensures c == Throws <==> !v.JStr?
    ensures c == Blank <==> v.JStr? && forall i :: 0 <= i < |v.s| ==> IsWhite(v.s[i])
  {
    if !v.JStr? then Throws
    else
      TrimEmptyIffAllWhite(v.s);
      if Trim(v.s) == "" then Blank
      else Filled
  }

  /** Check `i` is the first that is not `Filled`; the ones before it all are. */
  predicate FirstUnfilled(checks: seq<Check>, i: int)
  {
    0 <= i < |checks| && checks[i] != Filled
    && forall j :: 0 <= j < i ==> checks[j] == Filled
  }

  /** `!a.trim() || !b.trim() || …`: the first field that is not filled decides, later ones are not looked at. */
  function Validate(checks: seq<Check>): (c: Check)
    ensures c == Filled <==> forall i :: 0 <= i < |checks| ==> checks[i] == Filled
    ensures c != Filled ==> exists i :: FirstUnfilled(checks, i) && checks[i] == c
  {
    if checks == [] then Filled
    else if checks[0] != Filled then
      assert FirstUnfilled(checks, 0);
      checks[0]
    else
      var c := Validate(checks[1..]);
      if c != Filled then
        var i :| FirstUnfilled(checks[1..], i) && checks[1..][i] == c;
        assert FirstUnfilled(checks, i + 1);
        c
      else
        assert forall i :: 1 <= i < |checks| ==> checks[i] == checks[1..][i - 1];
        c
  }

  /** The `bookData` the form submits: its six fields, the price parsed with `parseFloat`. */
  function BookData(title: Json, author: Json, price: string, description: Json, image: Json, category: Json): (d: Obj)
    ensures d.Keys == {"title", "author", "price", "description", "image", "category"}
    ensures d["price"] == JNum(ParseFloat(price))
    ensures d["title"] == title && d["author"] == author && d["description"] == description
    ensures d["image"] == image && d["category"] == category
  {
    assert "title"[0] == 't' && "author"[0] == 'a' && "price"[0] == 'p';
    assert "description"[0] == 'd' && "image"[0] == 'i' && "category"[0] == 'c';
    var parsed := JNum(ParseFloat(price));
    map["title" := title, "author" := author, "price" := parsed,
        "description" := description, "image" := image, "category" := category]
  }

  /** Where a submission went. */
  datatype Submission = Refused | Crashed | Posted(data: Obj) | Updated(bookId: Json, data: Obj)

  class PostBookScreen {
    const books: BookContext
    /** `route.params?.isEditing` and `route.params?.book`. */
    const isEditing: Json
    const existingBook: Json
    var bookTitle: Json
    var author: Json
    var price: Json
    var description: Json
    var category: Json
    var bookImage: Json
    var localError: string
    var navigatedBack: bool

    constructor(books: BookContext, isEditing: Json, existingBook: Json)
      ensures this.books == books && this.isEditing == isEditing && this.existingBook == existingBook
      ensures bookTitle == JStr("") && author == JStr("") && price == JStr("") && description == JStr("")
      ensures category == JStr(Categories[0]) && bookImage == JNull && localError == "" && !navigatedBack
    {
      this.books := books;
      this.isEditing := isEditing;
      this.existingBook := existingBook;
      bookTitle := JStr("");
      author := JStr("");
      price := JStr("");
      description := JStr("");
      category := JStr("Fiction");
      bookImage := JNull;
      localError := "";
      navigatedBack := false;
    }

    /** `isEditing && existingBook` */
    predicate Editing()
    {
      Truthy(isEditing) && Truthy(existingBook)
    }

    /**
     * The prefill effect: when editing, the form takes the book's fields,
     * its price as text. A missing (`null` or `undefined`) price makes
     * `toString` throw after the title and author are set, and the fields
     * after it are not.
     */
    method Prefill() returns (threw: bool)
      modifies this
      ensures localError == old(localError) && navigatedBack == old(navigatedBack)
      ensures !Editing() ==>
        (!threw && bookTitle == old(bookTitle) && author == old(author) && price == old(price)
        && description == old(description) && category == old(category) && bookImage == old(bookImage))
      ensures Editing() ==>
        (bookTitle == Member(existingBook, "title") && author == Member(existingBook, "author")
        && (threw <==> Member(existingBook, "price").JNull? || Member(existingBook, "price").JUndefined?))
      ensures Editing() && threw ==>
        price == old(price) && description == old(description) && category == old(category) && bookImage == old(bookImage)
      ensures Editing() && !threw ==>
        (price == JStr(ToJsString(Member(existingBook, "price")))
        && description == Member(existingBook, "description") && category == Member(existingBook, "category")
        && bookImage == Member(existingBook, "image"))
    {
      threw := false;
      if Editing() {
        bookTitle := Member(existingBook, "title");
        author := Member(existingBook, "author");
        var p := Member(existingBook, "price");
        if p.JNull? || p.JUndefined? {
          threw := true;
        } else {
          price := JStr(ToJsString(p));
          description := Member(existingBook, "description");
          category := Member(existingBook, "category");
          bookImage := Member(existingBook, "image");
        }
      }
    }

    /** The checks of the four fields `handleSubmit` looks at, in the order it looks. */
    function Required(): seq<Check>
      reads this
    {
      [FieldCheck(bookTitle), FieldCheck(author), FieldCheck(price), FieldCheck(description)]
    }

    /** The `bookData` of the current form, once the checks have passed: the fields as typed, the price parsed. */
    function Data(): (d: Obj)
      requires Validate(Required()) == Filled
      reads this
      ensures price.JStr? && d.Keys == {"title", "author", "price", "description", "image", "category"}
      ensures d["title"] == bookTitle && d["author"] == author && d["description"] == description
      ensures d["price"] == JNum(ParseFloat(price.s)) && d["image"] == bookImage && d["category"] == category
    {
      assert Required()[2] == Filled;
      BookData(bookTitle, author, price.s, description, bookImage, category)
    }

    /**
     * `handleSubmit`: a blank field sets the local error; a field that is no
     * string throws and nothing happens; otherwise the book data goes to
     * `updateBook(existingBook.id, …)` when editing and to `postBook`
     * otherwise, and the screen goes back on success or shows the store's
     * error.
     */
    method HandleSubmit(id: string, createdAt: string, failure: Option<string>) returns (s: Submission)
      modifies this, books, books.store
      ensures bookTitle == old(bookTitle) && author == old(author) && price == old(price)
      ensures description == old(description) && category == old(category) && bookImage == old(bookImage)
      ensures books.user == old(books.user) && books.exchangeHistory == old(books.exchangeHistory)
      ensures old(Validate(Required())) != Filled ==>
        (navigatedBack == old(navigatedBack) && books.myBooks == old(books.myBooks)
        && books.store.data == old(books.store.data))
      ensures old(Validate(Required())) == Blank ==> s == Refused && localError == "Please fill in all fields"
      ensures old(Validate(Required())) == Throws ==> s == Crashed && localError == old(localError)
      ensures old(Validate(Required())) == Filled && Editing() ==>
        (s == Updated(Member(existingBook, "id"), old(Data()))
        && (navigatedBack <==> old(navigatedBack) || (old(books.StoredBooks()).Some? && failure.None?))
        && (old(books.StoredBooks()).Some? && failure.None? ==>
              books.myBooks == MergeWhere(old(books.myBooks), "id", Member(existingBook, "id"), old(Data()))
              && localError == old(localError)
              && books.store.data == old(books.store.data)[PostedBooksKey :=
                   Items(MergeWhere(old(books.StoredBooks()).value, "id", Member(existingBook, "id"), old(Data())))])
        && (!(old(books.StoredBooks()).Some? && failure.None?) ==>
              localError == "Failed to update book" && books.myBooks == old(books.myBooks)
              && books.store.data == old(books.store.data)))
      ensures old(Validate(Required())) == Filled && !Editing() ==>
        (s == Posted(old(Data()))
        && (navigatedBack <==> old(navigatedBack) || (old(books.StoredBooks()).Some? && books.user.Some? && failure.None?))
        && (old(books.StoredBooks()).Some? && books.user.Some? && failure.None? ==>
              books.myBooks == old(books.myBooks) + [NewBook(old(Data()), id, Prop(books.user.value, "id"), createdAt)]
              && localError == old(localError)
              && books.store.data == old(books.store.data)[PostedBooksKey :=
                   Items(old(books.StoredBooks()).value + [NewBook(old(Data()), id, Prop(books.user.value, "id"), createdAt)])])
        && (!(old(books.StoredBooks()).Some? && books.user.Some? && failure.None?) ==>
              localError == "Failed to post book" && books.myBooks == old(books.myBooks)
              && books.store.data == old(books.store.data)))
    {
      var check := Validate(Required());
      if check == Blank {
        localError := "Please fill in all fields";
        s := Refused;
      } else if check == Throws {
        s := Crashed;
      } else {
        var data := Data();
        if Editing() {
          s := Updated(Member(existingBook, "id"), data);
          SubmitUpdate(Member(existingBook, "id"), data, failure);
        } else {
          s := Posted(data);
          SubmitPost(data, id, createdAt, failure);
        }
      }
    }

    /** `result = await updateBook(existingBook.id, bookData)` and what the screen does with the result. */
    method SubmitUpdate(bookId: Json, data: Obj, failure: Option<string>)
      modifies this, books, books.store
      ensures bookTitle == old(bookTitle) && author == old(author) && price == old(price)
      ensures description == old(description) && category == old(category) && bookImage == old(bookImage)
      ensures books.user == old(books.user)
      ensures navigatedBack <==> old(navigatedBack) || (old(books.StoredBooks()).Some? && failure.None?)
      ensures books.exchangeHistory == old(books.exchangeHistory) && !books.loading
      ensures old(books.StoredBooks()).Some? && failure.None? ==>
        books.myBooks == MergeWhere(old(books.myBooks), "id", bookId, data) && localError == old(localError)
        && books.store.data
           == old(books.store.data)[PostedBooksKey := Items(MergeWhere(old(books.StoredBooks()).value, "id", bookId, data))]
      ensures !(old(books.StoredBooks()).Some? && failure.None?) ==>
        localError == "Failed to update book" && books.myBooks == old(books.myBooks)
        && books.store.data == old(books.store.data)
    {
      var r := books.UpdateBook(bookId, data, failure);
      if r.Success? {
        navigatedBack := true;
      } else {
        localError := r.error;
      }
    }

    /** `result = await postBook(bookData)` and what the screen does with the result. */
    method SubmitPost(data: Obj, id: string, createdAt: string, failure: Option<string>)
      modifies this, books, books.store
      ensures bookTitle == old(bookTitle) && author == old(author) && price == old(price)
      ensures description == old(description) && category == old(category) && bookImage == old(bookImage)
      ensures books.user == old(books.user)
      ensures navigatedBack <==> old(navigatedBack) || (old(books.StoredBooks()).Some? && books.user.Some? && failure.None?)
      ensures books.exchangeHistory == old(books.exchangeHistory) && !books.loading
      ensures old(books.StoredBooks()).Some? && books.user.Some? && failure.None? ==>
        books.myBooks == old(books.myBooks) + [NewBook(data, id, Prop(books.user.value, "id"), createdAt)]
        && localError == old(localError)
        && books.store.data == old(books.store.data)[PostedBooksKey :=
             Items(old(books.StoredBooks()).value + [NewBook(data, id, Prop(books.user.value, "id"), createdAt)])]
      ensures !(old(books.StoredBooks()).Some? && books.user.Some? && failure.None?) ==>
        localError == "Failed to post book" && books.myBooks == old(books.myBooks)
        && books.store.data == old(books.store.data)
    {
      var r := books.PostBook(data, id, createdAt, failure);
      if r.Success? {
        navigatedBack := true;
      } else {
        localError := r.error;
      }
    }
  }

  // ------------------------------------------------------------------ lemmas

  /** The checks stop at the first blank field: a later field that is no string does not throw. */
  lemma BlankStopsBeforeThrow(rest: seq<Check>)
    ensures Validate([FieldCheck(JStr(" "))] + rest) == Blank
  {
  }

  /** A price that is text but no number passes the checks and is saved as NaN. */
  lemma WordPriceIsNaN(title: Json, author: Json, description: Json, image: Json, category: Json)
    ensures FieldCheck(JStr("free")) == Filled
    ensures BookData(title, author, "free", description, image, category)["price"] == JNum(NaN)
  {
    ParseFloatOfWord("free");
  }

  /**
   * Editing a book and saving it untouched keeps its price: the text the
   * form shows reads back as the same number whenever the price prints
   * exactly.
   */
  lemma PrefilledPriceRoundTrip(v: real, title: Json, author: Json, description: Json, image: Json, category: Json)
    requires FractionDigits(Abs(v), 0) < 20
    ensures BookData(title, author, NumberToString(Real(v)), description, image, category)["price"] == JNum(Real(v))
  {
    NumberToStringRoundTrip(v);
  }
}
