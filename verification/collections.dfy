/**
 * The array operations the stores and screens apply to lists of objects,
 * keyed by one property compared with `===`: `filter(x => x.f === v)`,
 * `filter(x => x.f !== v)`, `some`, `find` and
 * `map(x => x.f === v ? {...x, ...patch} : x)`.
 */
module Collections {
  import opened Js

  /** `x.f === v` */
  predicate Matches(x: Obj, f: string, v: Json)
  {
    StrictEq(Prop(x, f), v)
  }

  /** `a` is `b` with some elements left out, the rest in their order. */
  predicate IsSubsequence<T(==)>(a: seq<T>, b: seq<T>)
    decreases |b|
  {
    a == [] || (b != [] && ((a[0] == b[0] && IsSubsequence(a[1..], b[1..])) || IsSubsequence(a, b[1..])))
  }

  /** `xs.filter(x => x.f === v)` */
  function Matching(xs: seq<Obj>, f: string, v: Json): (r: seq<Obj>)
    ensures forall y :: y in r ==> y in xs && Matches(y, f, v)
    ensures forall x :: x in xs && Matches(x, f, v) ==> x in r
    ensures IsSubsequence(r, xs)
  {
    if xs == [] then []
    else
      var rest := Matching(xs[1..], f, v);
      if Matches(xs[0], f, v) then
        assert ([xs[0]] + rest)[1..] == rest;
        [xs[0]] + rest
      else rest
  }

  /** `xs.filter(x => x.f !== v)` */
  function Without(xs: seq<Obj>, f: string, v: Json): (r: seq<Obj>)
    ensures forall y :: y in r ==> y in xs && !Matches(y, f, v)
    ensures forall x :: x in xs && !Matches(x, f, v) ==> x in r
    ensures IsSubsequence(r, xs)
  {
    if xs == [] then []
    else
      var rest := Without(xs[1..], f, v);
      if Matches(xs[0], f, v) then rest
      else
        assert ([xs[0]] + rest)[1..] == rest;
        [xs[0]] + rest
  }

  /** `xs.some(x => x.f === v)` */
  predicate AnyMatch(xs: seq<Obj>, f: string, v: Json)
  {
    exists i :: 0 <= i < |xs| && Matches(xs[i], f, v)
  }

  /** The index `xs.find(x => x.f === v)` stops at, if any. */
  function FindFirst(xs: seq<Obj>, f: string, v: Json): (r: Option<nat>)
    ensures r.Some? ==> r.value < |xs| && Matches(xs[r.value], f, v)
    ensures r.Some? ==> forall j :: 0 <= j < r.value ==> !Matches(xs[j], f, v)
    ensures r.None? ==> forall j :: 0 <= j < |xs| ==> !Matches(xs[j], f, v)
  {
    if xs == [] then None
    else if Matches(xs[0], f, v) then Some(0)
    else
      match FindFirst(xs[1..], f, v)
      case None => None
      case Some(i) => Some(i + 1)
  }

  /** `xs.map(x => x.f === v ? {...x, ...patch} : x)` */
  function MergeWhere(xs: seq<Obj>, f: string, v: Json, patch: Obj): (r: seq<Obj>)
    ensures |r| == |xs|
    ensures forall i :: 0 <= i < |xs| && !Matches(xs[i], f, v) ==> r[i] == xs[i]
    ensures forall i :: 0 <= i < |xs| && Matches(xs[i], f, v) ==> r[i].Keys == xs[i].Keys + patch.Keys
    ensures forall i, k :: 0 <= i < |xs| && Matches(xs[i], f, v) && k in patch ==> r[i][k] == patch[k]
    ensures forall i, k :: 0 <= i < |xs| && Matches(xs[i], f, v) && k in xs[i] && k !in patch ==> r[i][k] == xs[i][k]
  {
    seq(|xs|, i requires 0 <= i < |xs| => if Matches(xs[i], f, v) then xs[i] + patch else xs[i])
  }

  // ------------------------------------------------------------------ lemmas

  /** `find` finds something exactly when `some` holds. */
  lemma FindFirstIffAny(xs: seq<Obj>, f: string, v: Json)
    ensures FindFirst(xs, f, v).Some? <==> AnyMatch(xs, f, v)
  {
    if FindFirst(xs, f, v).Some? {
      assert Matches(xs[FindFirst(xs, f, v).value], f, v);
    }
  }

  /** The two filters split a list: every element goes to exactly one side. */
  lemma {:induction false} FiltersPartition(xs: seq<Obj>, f: string, v: Json)
    ensures |Matching(xs, f, v)| + |Without(xs, f, v)| == |xs|
    ensures multiset(Matching(xs, f, v)) + multiset(Without(xs, f, v)) == multiset(xs)
  {
    if xs != [] {
      FiltersPartition(xs[1..], f, v);
      assert xs == [xs[0]] + xs[1..];
    }
  }

  /** Filtering out an id nobody has leaves the list as it is. */
  lemma {:induction false} WithoutAbsent(xs: seq<Obj>, f: string, v: Json)
    requires !AnyMatch(xs, f, v)
    ensures Without(xs, f, v) == xs
  {
    if xs != [] {
      assert !Matches(xs[0], f, v);
      assert !AnyMatch(xs[1..], f, v) by {
        forall i | 0 <= i < |xs[1..]|
          ensures !Matches(xs[1..][i], f, v)
        {
          assert xs[1..][i] == xs[i + 1];
        }
      }
      WithoutAbsent(xs[1..], f, v);
      assert xs == [xs[0]] + xs[1..];
    }
  }

  /**
   * Appending an element with a fresh key and then filtering that key out
   * gives back the list as it was before the append.
   */
  lemma {:induction false} WithoutAppendFresh(xs: seq<Obj>, b: Obj, f: string, v: Json)
    requires Matches(b, f, v) && !AnyMatch(xs, f, v)
    ensures Without(xs + [b], f, v) == xs
  {
    if xs == [] {
      assert xs + [b] == [b] && [b][1..] == [];
    } else {
      var ys := xs + [b];
      assert ys[0] == xs[0] && ys[1..] == xs[1..] + [b];
      assert !Matches(xs[0], f, v);
      assert !AnyMatch(xs[1..], f, v) by {
        forall i | 0 <= i < |xs[1..]|
          ensures !Matches(xs[1..][i], f, v)
        {
          assert xs[1..][i] == xs[i + 1];
        }
      }
      WithoutAppendFresh(xs[1..], b, f, v);
      assert xs == [xs[0]] + xs[1..];
    }
  }

  /** Nothing with the id is left after filtering it out. */
  lemma WithoutRemovesAll(xs: seq<Obj>, f: string, v: Json)
    ensures !AnyMatch(Without(xs, f, v), f, v)
  {
    var r := Without(xs, f, v);
    forall i | 0 <= i < |r|
      ensures !Matches(r[i], f, v)
    {
      assert r[i] in r;
    }
  }

  /** Filtering twice is filtering once. */
  lemma WithoutIdempotent(xs: seq<Obj>, f: string, v: Json)
    ensures Without(Without(xs, f, v), f, v) == Without(xs, f, v)
  {
    WithoutRemovesAll(xs, f, v);
    WithoutAbsent(Without(xs, f, v), f, v);
  }

  /** Merging into an id nobody has leaves the list as it is. */
  lemma MergeAbsent(xs: seq<Obj>, f: string, v: Json, patch: Obj)
    requires !AnyMatch(xs, f, v)
    ensures MergeWhere(xs, f, v, patch) == xs
  {
  }

  /** After appending `x`, `some` finds its key, unless that key is NaN or an object, which `===` never matches. */
  lemma AnyMatchAppend(xs: seq<Obj>, x: Obj, f: string)
    ensures AnyMatch(xs + [x], f, Prop(x, f)) <==> AnyMatch(xs, f, Prop(x, f)) || ComparableId(Prop(x, f))
  {
    var ys := xs + [x];
    assert ys[|xs|] == x;
    if AnyMatch(ys, f, Prop(x, f)) {
      var i :| 0 <= i < |ys| && Matches(ys[i], f, Prop(x, f));
      StrictEqIsEquality(Prop(ys[i], f), Prop(x, f));
      if i < |xs| {
        assert ys[i] == xs[i];
      }
    }
    if AnyMatch(xs, f, Prop(x, f)) {
      var i :| 0 <= i < |xs| && Matches(xs[i], f, Prop(x, f));
      assert ys[i] == xs[i];
    }
  }

  /** Filtering a concatenation filters each part. */
  lemma {:induction false} MatchingAppend(xs: seq<Obj>, ys: seq<Obj>, f: string, v: Json)
    ensures Matching(xs + ys, f, v) == Matching(xs, f, v) + Matching(ys, f, v)
  {
    if xs == [] {
      assert xs + ys == ys;
    } else {
      var zs := xs + ys;
      assert zs[0] == xs[0] && zs[1..] == xs[1..] + ys;
      MatchingAppend(xs[1..], ys, f, v);
      var h := if Matches(xs[0], f, v) then [xs[0]] else [];
      assert Matching(zs, f, v) == h + Matching(zs[1..], f, v);
      assert Matching(xs, f, v) == h + Matching(xs[1..], f, v);
      AppendAssociative(h, Matching(xs[1..], f, v), Matching(ys, f, v));
    }
  }

  lemma AppendAssociative<T>(a: seq<T>, b: seq<T>, c: seq<T>)
    ensures a + (b + c) == (a + b) + c
  {
  }

  /** Leaving elements out of a list that was itself made by leaving elements out. */
  lemma {:induction false} SubsequenceTransitive<T>(a: seq<T>, b: seq<T>, c: seq<T>)
    requires IsSubsequence(a, b) && IsSubsequence(b, c)
    ensures IsSubsequence(a, c)
    decreases |a| + |b| + |c|
  {
    if a != [] {
      if IsSubsequence(b, c[1..]) {
        SubsequenceTransitive(a, b, c[1..]);
      } else {
        assert b[0] == c[0] && IsSubsequence(b[1..], c[1..]);
        if a[0] == b[0] && IsSubsequence(a[1..], b[1..]) {
          SubsequenceTransitive(a[1..], b[1..], c[1..]);
        } else {
          SubsequenceTransitive(a, b[1..], c[1..]);
        }
      }
    }
  }

  /** Every list is a subsequence of itself. */
  lemma {:induction false} SubsequenceReflexive<T>(a: seq<T>)
    ensures IsSubsequence(a, a)
  {
    if a != [] {
      SubsequenceReflexive(a[1..]);
    }
  }
}
