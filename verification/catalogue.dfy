/**
 * The bundled catalogue (`src/data/books.json`, read by the explore and home
 * screens): an object whose keys are category names, in order, each holding
 * that category's books, and the case-insensitive text search both screens
 * run over it.
 */
module Catalogue {
  import opened Js
  import opened Collections

  /** One key of the catalogue object and its array of books. */
  datatype Category = Category(name: string, books: seq<Obj>)

  /** The keys of a JSON object are distinct. */
  predicate DistinctNames(cat: seq<Category>)
  {
    forall i, j :: 0 <= i < j < |cat| ==> cat[i].name != cat[j].name
  }

  /** `Object.values(booksData).flat()`: every category's books, category after category. */
  function Flatten(cat: seq<Category>): (r: seq<Obj>)
    ensures forall b :: b in r <==> exists k :: 0 <= k < |cat| && b in cat[k].books
  {
    if cat == [] then []
    else
      var p := cat[..|cat| - 1];
      var r := Flatten(p) + cat[|cat| - 1].books;
      assert forall k :: 0 <= k < |p| ==> p[k] == cat[k];
      r
  }

  /** `book.f.toLowerCase().includes(query)` for a string field. */
  predicate FieldIncludes(book: Obj, f: string, query: string)
  {
    Prop(book, f).JStr? && Includes(ToLower(Prop(book, f).s), query)
  }

  /**
   * Whether `book` matches the lower-cased query on one of `fields`, tried
   * in order as `||` tries them: `None` when a field that has to be read is
   * not a string, whose `toLowerCase` throws.
   */
  function MatchesQuery(book: Obj, query: string, fields: seq<string>): (r: Option<bool>)
    ensures r == Some(true) ==> exists i :: 0 <= i < |fields| && FieldIncludes(book, fields[i], query)
  {
    if fields == [] then Some(false)
    else
      match Prop(book, fields[0])
      case JStr(s) =>
        if Includes(ToLower(s), query) then Some(true)
        else
          var rest := MatchesQuery(book, query, fields[1..]);
          assert rest == Some(true) ==> exists i :: 1 <= i < |fields| && FieldIncludes(book, fields[i], query) by {
            if rest == Some(true) {
              var i :| 0 <= i < |fields[1..]| && FieldIncludes(book, fields[1..][i], query);
              assert fields[1..][i] == fields[i + 1];
            }
          }
          rest
      case _ => None
  }

  /**
   * `books.filter(book => book.f1.toLowerCase().includes(query) || ...)`:
   * the matching books in order, or `None` when a test throws.
   */
  function SearchFilter(books: seq<Obj>, query: string, fields: seq<string>): (r: Option<seq<Obj>>)
    ensures r.None? <==> exists i :: 0 <= i < |books| && MatchesQuery(books[i], query, fields).None?
    ensures r.Some? ==> IsSubsequence(r.value, books)
    ensures r.Some? ==> forall b :: b in r.value <==> b in books && MatchesQuery(b, query, fields) == Some(true)
  {
    if books == [] then Some([])
    else
      var head := MatchesQuery(books[0], query, fields);
      var rest := SearchFilter(books[1..], query, fields);
      assert forall i :: 0 <= i < |books[1..]| ==> books[1..][i] == books[i + 1];
      assert forall b :: b in books <==> b == books[0] || b in books[1..];
      if head.None? || rest.None? then None
      else if head.value then
        assert ([books[0]] + rest.value)[1..] == rest.value;
        Some([books[0]] + rest.value)
      else rest
  }

  // ------------------------------------------------------------------ lemmas

  /** Flattening puts the books of each category after those of the categories before it. */
  lemma {:induction false} FlattenAppend(a: seq<Category>, b: seq<Category>)
    ensures Flatten(a + b) == Flatten(a) + Flatten(b)
    decreases |b|
  {
    if b == [] {
      assert a + b == a;
    } else {
      var b' := b[..|b| - 1];
      var ab := a + b;
      assert ab[..|ab| - 1] == a + b' && ab[|ab| - 1] == b[|b| - 1];
      FlattenAppend(a, b');
      assert Flatten(ab) == Flatten(a + b') + b[|b| - 1].books;
      assert Flatten(b) == Flatten(b') + b[|b| - 1].books;
    }
  }

  /** When every searched field is a string, a book matches exactly when one of them holds the query. */
  lemma {:induction false} MatchesQueryOnText(book: Obj, query: string, fields: seq<string>)
    requires forall i :: 0 <= i < |fields| ==> Prop(book, fields[i]).JStr?
    ensures MatchesQuery(book, query, fields) == Some(exists i :: 0 <= i < |fields| && FieldIncludes(book, fields[i], query))
  {
    if fields != [] && !FieldIncludes(book, fields[0], query) {
      MatchesQueryOnText(book, query, fields[1..]);
      assert forall i :: 1 <= i < |fields| ==> fields[i] == fields[1..][i - 1];
    }
  }
}
