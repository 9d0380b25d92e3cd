/**
 * The explore screen (src/screens/ExploreScreen.js): the whole catalogue,
 * tagged with its categories, followed by every user's posted books, then
 * narrowed by the selected category and by a case-insensitive search over
 * title, author and description.
 */
module Explore {
  import opened Js
  import opened Storage
  import opened Collections
  import opened Catalogue
  import Books

  /** The category pills, 'All' first. */
  const CategoryNames: seq<string> :=
    ["All", "Fiction", "Non-Fiction", "Science", "Technology", "Art & Design", "Business"]

  /** The fields the explore search reads, in the order `||` tries them. */
  const SearchFields: seq<string> := ["title", "author", "description"]

  /** `{...book, category, isPosted: false}` */
  function TagStatic(book: Obj, category: string): (r: Obj)
    ensures r.Keys == book.Keys + {"category", "isPosted"}
    ensures r["category"] == JStr(category) && r["isPosted"] == JBool(false)
    ensures forall k :: k in book && k != "category" && k != "isPosted" ==> r[k] == book[k]
  {
    OverrideTwo(book, "category", JStr(category), "isPosted", JBool(false));
    book + map["category" := JStr(category), "isPosted" := JBool(false)]
  }

  /** `{...book, isPosted: true}` */
  function TagPosted(book: Obj): (r: Obj)
    ensures r.Keys == book.Keys + {"isPosted"} && r["isPosted"] == JBool(true)
    ensures forall k :: k in book && k != "isPosted" ==> r[k] == book[k]
  {
    book["isPosted" := JBool(true)]
  }

  /**
   * The `reduce` over `Object.entries(booksData)`: the books gathered so far,
   * then the next category's books, each tagged with that category.
   */
  function StaticBooks(cat: seq<Category>): (r: seq<Obj>)
    ensures |r| == |Flatten(cat)|
  {
    if cat == [] then []
    else
      var last := cat[|cat| - 1];
      StaticBooks(cat[..|cat| - 1]) + seq(|last.books|, i requires 0 <= i < |last.books| => TagStatic(last.books[i], last.name))
  }

  /**
   * `getAllBooks`: the tagged catalogue, then the stored posted books tagged
   * as posted (none when the key is missing); an unreadable key makes the
   * whole result empty.
   */
  function GetAllBooks(cat: seq<Category>, read: ListRead): (r: seq<Obj>)
    ensures read.Unreadable? ==> r == []
    ensures read.Absent? ==> r == StaticBooks(cat)
    ensures read.Found? ==>
      (|r| == |StaticBooks(cat)| + |read.items| && r[..|StaticBooks(cat)|] == StaticBooks(cat)
      && forall j :: 0 <= j < |read.items| ==> r[|StaticBooks(cat)| + j] == TagPosted(read.items[j]))
  {
    match ListOrEmpty(read)
    case None => []
    case Some(posted) =>
      var s := StaticBooks(cat);
      var r := s + seq(|posted|, j requires 0 <= j < |posted| => TagPosted(posted[j]));
      assert r[..|s|] == s;
      r
  }

  /** `loadBooks`' two filters: the category unless it is 'All', then the search unless the query is empty. */
  function FilterBooks(all: seq<Obj>, category: string, query: string): (r: Option<seq<Obj>>)
    ensures r.Some? ==> IsSubsequence(r.value, all)
    ensures r.Some? && category != "All" ==> forall b :: b in r.value ==> Matches(b, "category", JStr(category))
    ensures query == "" ==> r.Some?
    ensures query == "" ==>
      forall b :: b in r.value <==> b in all && (category == "All" || Matches(b, "category", JStr(category)))
    ensures query == "" && category == "All" ==> r == Some(all)
  {
    var byCategory := if category != "All" then Matching(all, "category", JStr(category)) else all;
    SubsequenceReflexive(all);
    if query != "" then
      var r := SearchFilter(byCategory, ToLower(query), SearchFields);
      if r.None? then r
      else
        SubsequenceTransitive(r.value, byCategory, all);
        r
    else Some(byCategory)
  }

  /** The list shown after a reload: the filtered list, or the previous one when the search threw. */
  predicate Shows(shown: seq<Obj>, previous: seq<Obj>, filtered: Option<seq<Obj>>)
  {
    match filtered
    case Some(f) => shown == f
    case None => shown == previous
  }

  class ExploreScreen {
    const store: Store
    /** `booksData` */
    const catalogue: seq<Category>
    var searchQuery: string
    var selectedCategory: string
    var filteredBooks: seq<Obj>
    var loading: bool

    constructor(store: Store, catalogue: seq<Category>)
      ensures this.store == store && this.catalogue == catalogue
      ensures searchQuery == "" && selectedCategory == "All" && filteredBooks == [] && !loading
    {
      this.store := store;
      this.catalogue := catalogue;
      searchQuery := "";
      selectedCategory := "All";
      filteredBooks := [];
      loading := false;
    }

    /**
     * `loadBooks`: the filtered list is shown; a search that throws on a
     * book without a string field leaves the shown list as it was.
     */
    method LoadBooks()
      modifies this
      ensures searchQuery == old(searchQuery) && selectedCategory == old(selectedCategory) && !loading
      ensures Shows(filteredBooks, old(filteredBooks), FilterBooks(GetAllBooks(catalogue, store.ReadList(Books.PostedBooksKey)), selectedCategory, searchQuery))
    {
      loading := true;
      var allBooks := GetAllBooks(catalogue, store.ReadList(Books.PostedBooksKey));
      loading := false;
      var filtered := FilterBooks(allBooks, selectedCategory, searchQuery);
      Show(filtered);
    }

    /** `setFilteredBooks(filtered)`, reached only when the filters did not throw. */
    method Show(filtered: Option<seq<Obj>>)
      modifies this
      ensures searchQuery == old(searchQuery) && selectedCategory == old(selectedCategory) && loading == old(loading)
      ensures Shows(filteredBooks, old(filteredBooks), filtered)
    {
      if filtered.Some? {
        filteredBooks := filtered.value;
      }
    }

    /** Choosing a category pill, which reloads the list. */
    method SelectCategory(name: string)
      modifies this
      ensures searchQuery == old(searchQuery) && selectedCategory == name && !loading
      ensures Shows(filteredBooks, old(filteredBooks), FilterBooks(GetAllBooks(catalogue, store.ReadList(Books.PostedBooksKey)), name, searchQuery))
    {
      selectedCategory := name;
      LoadBooks();
    }

    /** Typing in the search box, which reloads the list. */
    method Search(query: string)
      modifies this
      ensures searchQuery == query && selectedCategory == old(selectedCategory) && !loading
      ensures Shows(filteredBooks, old(filteredBooks), FilterBooks(GetAllBooks(catalogue, store.ReadList(Books.PostedBooksKey)), selectedCategory, query))
    {
      searchQuery := query;
      LoadBooks();
    }
  }

  // ------------------------------------------------------------------ lemmas

  /** `tagged` is `book` tagged with the name of a category that holds it. */
  predicate TaggedFrom(cat: seq<Category>, book: Obj, tagged: Obj)
  {
    exists k :: 0 <= k < |cat| && book in cat[k].books && tagged == TagStatic(book, cat[k].name)
  }

  /** A book tagged from the categories before the last is tagged from them all. */
  lemma TaggedFromPrefix(cat: seq<Category>, book: Obj, tagged: Obj)
    requires cat != [] && TaggedFrom(cat[..|cat| - 1], book, tagged)
    ensures TaggedFrom(cat, book, tagged)
  {
    var p := cat[..|cat| - 1];
    var k :| 0 <= k < |p| && book in p[k].books && tagged == TagStatic(book, p[k].name);
    assert p[k] == cat[k];
  }

  /**
   * Every static book is a catalogue book tagged with the name of a category
   * that holds it, and with `isPosted: false`.
   */
  lemma {:induction false} StaticBooksTagged(cat: seq<Category>)
    ensures var s := StaticBooks(cat);
      forall i :: 0 <= i < |s| ==> TaggedFrom(cat, Flatten(cat)[i], s[i])
  {
    if cat != [] {
      var p := cat[..|cat| - 1];
      var last := cat[|cat| - 1];
      StaticBooksTagged(p);
      var s := StaticBooks(cat);
      var f := Flatten(cat);
      var sp := StaticBooks(p);
      var tail := seq(|last.books|, i requires 0 <= i < |last.books| => TagStatic(last.books[i], last.name));
      assert s == sp + tail;
      assert f == Flatten(p) + last.books;
      forall i | 0 <= i < |s|
        ensures TaggedFrom(cat, f[i], s[i])
      {
        if i < |sp| {
          assert TaggedFrom(p, Flatten(p)[i], sp[i]);
          TaggedFromPrefix(cat, Flatten(p)[i], sp[i]);
          assert s[i] == sp[i] && f[i] == Flatten(p)[i];
        } else {
          var j := i - |sp|;
          assert s[i] == tail[j] && f[i] == last.books[j];
          assert f[i] in cat[|cat| - 1].books;
        }
      }
    }
  }

  /**
   * The `reduce` keeps the categories in order: book `j` of category `k`
   * sits right after the books of the categories before it, tagged with the
   * name of category `k`.
   */
  lemma {:induction false} StaticBooksByCategory(cat: seq<Category>, k: int, j: int)
    requires 0 <= k < |cat| && 0 <= j < |cat[k].books|
    ensures var s := StaticBooks(cat); var at := |Flatten(cat[..k])| + j;
      at < |s| && s[at] == TagStatic(cat[k].books[j], cat[k].name)
  {
    var p := cat[..|cat| - 1];
    var last := cat[|cat| - 1];
    var sp := StaticBooks(p);
    var tail := seq(|last.books|, i requires 0 <= i < |last.books| => TagStatic(last.books[i], last.name));
    var at := |Flatten(cat[..k])| + j;
    if k < |cat| - 1 {
      assert at < |sp| && sp[at] == TagStatic(cat[k].books[j], cat[k].name) by {
        assert cat[..k] == p[..k] && cat[k] == p[k];
        StaticBooksByCategory(p, k, j);
      }
    } else {
      assert at == |sp| + j && tail[j] == TagStatic(cat[k].books[j], cat[k].name) by {
        assert cat[..k] == p;
      }
    }
    assert StaticBooks(cat) == sp + tail;
  }

  /**
   * With a non-empty query, and every candidate carrying a string title,
   * author and description, a book is shown exactly when it is in the list,
   * in the selected category, and one of the three holds the lower-cased
   * query.
   */
  lemma SearchKeepsIff(all: seq<Obj>, category: string, query: string)
    requires query != ""
    requires forall b :: b in all ==> forall f :: f in SearchFields ==> Prop(b, f).JStr?
    ensures var r := FilterBooks(all, category, query);
      r.Some?
      && forall b :: b in r.value <==>
        (b in all && (category == "All" || Matches(b, "category", JStr(category)))
        && (FieldIncludes(b, "title", ToLower(query)) || FieldIncludes(b, "author", ToLower(query))
            || FieldIncludes(b, "description", ToLower(query))))
  {
    var q := ToLower(query);
    var byCategory := if category != "All" then Matching(all, "category", JStr(category)) else all;
    forall b | b in byCategory
      ensures MatchesQuery(b, q, SearchFields)
        == Some(FieldIncludes(b, "title", q) || FieldIncludes(b, "author", q) || FieldIncludes(b, "description", q))
    {
      MatchesQueryOnText(b, q, SearchFields);
      assert SearchFields[0] == "title" && SearchFields[1] == "author" && SearchFields[2] == "description";
    }
  }
}
