/**
 * The device's key-value store (AsyncStorage) as the app uses it: every key
 * holds the JSON text of a list of objects or of one object. Serialising and
 * parsing are taken to be exact inverses, so a key holds the parsed value.
 * A write that throws is an input: `failure == Some(message)`.
 */
module Storage {
  import opened Js

  /** What `JSON.parse` makes of the text stored under a key. */
  datatype Stored = Items(items: seq<Obj>) | Record(fields: Obj) | Malformed

  /** `getItem(key)` followed by `JSON.parse`, for a key that should hold a list. */
  datatype ListRead = Absent | Found(items: seq<Obj>) | Unreadable

  /** `stored ? JSON.parse(stored) : []`: a missing key reads as the empty list; `None` is a throw. */
  function ListOrEmpty(r: ListRead): (l: Option<seq<Obj>>)
    ensures r.Absent? ==> l == Some([])
    ensures r.Found? ==> l == Some(r.items)
    ensures r.Unreadable? ==> l.None?
  {
    match r
    case Absent => Some([])
    case Found(items) => Some(items)
    case Unreadable => None
  }

  class Store {
    var data: map<string, Stored>

    constructor(init: map<string, Stored>)
      ensures data == init
    {
      data := init;
    }

    /**
     * Reading a key that should hold a list: a missing key, the list, or a
     * value that is malformed or not a list, on which the caller's
     * `JSON.parse`, `filter`, `map` or spread throws.
     */
    function ReadList(key: string): (r: ListRead)
      reads this
      ensures r.Absent? <==> key !in data
      ensures r.Found? ==> data[key] == Items(r.items)
      ensures r.Unreadable? ==> key in data && !data[key].Items?
    {
      if key !in data then Absent
      else if data[key].Items? then Found(data[key].items)
      else Unreadable
    }

    /** `setItem(key, JSON.stringify(value))` */
    method SetItem(key: string, value: Stored, failure: Option<string>) returns (err: Option<string>)
      modifies this
      ensures err == failure
      ensures failure.None? ==> data == old(data)[key := value]
      ensures failure.Some? ==> data == old(data)
    {
      err := failure;
      if failure.None? {
        data := data[key := value];
      }
    }

    /** `removeItem(key)` */
    method RemoveItem(key: string, failure: Option<string>) returns (err: Option<string>)
      modifies this
      ensures err == failure
      ensures failure.None? ==> data == old(data) - {key}
      ensures failure.Some? ==> data == old(data)
    {
      err := failure;
      if failure.None? {
        data := data - {key};
      }
    }
  }
}
