/**
 * The home screen (src/screens/HomeScreen.js): one tile per catalogue
 * category, a title-or-author search over the flattened catalogue, and the
 * first nine results split into three sections of three.
 */
module Home {
  import opened Js
  import opened Collections
  import opened Catalogue
  import Explore

  /** The icons `getCategoryIcon` knows; any other category gets 'book'. */
  const Icons: map<string, string> := map[
    "Fiction" := "book", "Non-Fiction" := "school", "Science" := "flask",
    "Technology" := "laptop", "Art & Design" := "color-palette", "Business" := "briefcase"]

  /** `getCategoryIcon(category)`: `icons[category] || 'book'`. */
  function CategoryIcon(category: string): (r: string)
    ensures category in Icons ==> r == Icons[category]
    ensures category !in Icons ==> r == "book"
  {
    if category in Icons && Icons[category] != "" then Icons[category] else "book"
  }

  /** A category tile: `{icon, name}`. */
  datatype CategoryTile = CategoryTile(icon: string, name: string)

  /** `Object.keys(booksData).map(...)`: one tile per catalogue key, in key order. */
  function CategoryTiles(cat: seq<Category>): (r: seq<CategoryTile>)
    ensures |r| == |cat|
    ensures forall k :: 0 <= k < |cat| ==> r[k].name == cat[k].name && r[k].icon == CategoryIcon(cat[k].name)
  {
    seq(|cat|, k requires 0 <= k < |cat| => CategoryTile(CategoryIcon(cat[k].name), cat[k].name))
  }

  /** The fields the home search reads: the description is not searched. */
  const SearchFields: seq<string> := ["title", "author"]

  /** `xs.slice(a, b)` for `0 <= a <= b`: indices past the end are cut to it. */
  function Slice<T>(xs: seq<T>, a: nat, b: nat): (r: seq<T>)
    requires a <= b
    ensures |r| <= b - a
    ensures a <= |xs| ==> r == xs[a..if b <= |xs| then b else |xs|]
    ensures a >= |xs| ==> r == []
  {
    var hi := if b <= |xs| then b else |xs|;
    var lo := if a <= hi then a else hi;
    xs[lo..hi]
  }

  class HomeScreen {
    /** `booksData` */
    const catalogue: seq<Category>
    var searchQuery: string
    var filteredBooks: seq<Obj>

    /** After the mount effects: an empty query and the whole flattened catalogue. */
    constructor(catalogue: seq<Category>)
      ensures this.catalogue == catalogue && searchQuery == "" && filteredBooks == Flatten(catalogue)
    {
      this.catalogue := catalogue;
      searchQuery := "";
      filteredBooks := Flatten(catalogue);
    }

    /**
     * Typing in the search box and the effect that follows: a blank query
     * shows everything; otherwise the untrimmed, lower-cased query is looked
     * for in titles and authors. A throwing test leaves the list as it was.
     */
    method SetSearchQuery(query: string)
      modifies this
      ensures searchQuery == query
      ensures Trim(query) == "" ==> filteredBooks == Flatten(catalogue)
      ensures Trim(query) != "" ==>
        (match SearchFilter(Flatten(catalogue), ToLower(query), SearchFields)
         case Some(f) => filteredBooks == f
         case None => filteredBooks == old(filteredBooks))
    {
      searchQuery := query;
      if Trim(query) != "" {
        var filtered := SearchFilter(Flatten(catalogue), ToLower(query), SearchFields);
        if filtered.Some? {
          filteredBooks := filtered.value;
        }
      } else {
        filteredBooks := Flatten(catalogue);
      }
    }

    /** `filteredBooks.slice(0, 3)`: the first three books, or all of them when there are fewer. */
    function FeaturedBooks(): (r: seq<Obj>)
      reads this
      ensures |r| == (if |filteredBooks| < 3 then |filteredBooks| else 3)
      ensures r == filteredBooks[..|r|]
    {
      Slice(filteredBooks, 0, 3)
    }

    /** `filteredBooks.slice(3, 6)`: the next three, none when there are at most three books. */
    function NewArrivals(): (r: seq<Obj>)
      reads this
      ensures |r| <= 3
      ensures |filteredBooks| <= 3 ==> r == []
      ensures |filteredBooks| >= 6 ==> r == filteredBooks[3..6]
    {
      Slice(filteredBooks, 3, 6)
    }

    /** `filteredBooks.slice(6, 9)`: the three after those, none when there are at most six books. */
    function BestSellers(): (r: seq<Obj>)
      reads this
      ensures |r| <= 3
      ensures |filteredBooks| <= 6 ==> r == []
      ensures |filteredBooks| >= 9 ==> r == filteredBooks[6..9]
    {
      Slice(filteredBooks, 6, 9)
    }
  }

  // ------------------------------------------------------------------ lemmas

  /** A category is shown with the plain book icon exactly when it is Fiction or not one of the six named ones. */
  lemma BookIconIff(category: string)
    ensures CategoryIcon(category) == "book" <==> category == "Fiction" || category !in Icons
  {
  }

  /** The tiles name each catalogue key once when the keys are distinct. */
  lemma TilesDistinct(cat: seq<Category>)
    requires DistinctNames(cat)
    ensures var t := CategoryTiles(cat);
      forall i, j :: 0 <= i < j < |t| ==> t[i].name != t[j].name
  {
  }

  /**
   * The three sections are consecutive, non-overlapping pieces of the list:
   * together they are its first nine books (fewer if it is shorter), each
   * at most three.
   */
  lemma SectionsSplitFirstNine(xs: seq<Obj>)
    ensures |Slice(xs, 0, 3)| <= 3 && |Slice(xs, 3, 6)| <= 3 && |Slice(xs, 6, 9)| <= 3
    ensures Slice(xs, 0, 3) + Slice(xs, 3, 6) + Slice(xs, 6, 9) == xs[..if |xs| <= 9 then |xs| else 9]
  {
    var n := if |xs| <= 9 then |xs| else 9;
    var a := if |xs| <= 3 then |xs| else 3;
    var b := if |xs| <= 6 then |xs| else 6;
    assert Slice(xs, 0, 3) == xs[..a];
    assert Slice(xs, 3, 6) == xs[a..b];
    assert Slice(xs, 6, 9) == xs[b..n];
    assert xs[..a] + xs[a..b] == xs[..b];
    assert xs[..b] + xs[b..n] == xs[..n];
  }

  /**
   * Home searches titles and authors only: a book whose description alone
   * holds the query is found by the explore screen and not here.
   */
  lemma DescriptionNotSearched(book: Obj, query: string)
    requires Prop(book, "title").JStr? && Prop(book, "author").JStr? && Prop(book, "description").JStr?
    requires !FieldIncludes(book, "title", query) && !FieldIncludes(book, "author", query)
    requires FieldIncludes(book, "description", query)
    ensures MatchesQuery(book, query, SearchFields) == Some(false)
    ensures MatchesQuery(book, query, Explore.SearchFields) == Some(true)
  {
    MatchesQueryOnText(book, query, SearchFields);
    MatchesQueryOnText(book, query, Explore.SearchFields);
    assert Explore.SearchFields[2] == "description";
  }
}
