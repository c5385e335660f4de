/** Stable insertion and sorting by a strict weak order: the result std::sort and ordered insertion promise. */
module Sorting {

  /** `less` orders its elements up to ties. */
  ghost predicate StrictWeak<T(!new)>(less: (T, T) -> bool) {
    && (forall a, b :: less(a, b) ==> !less(b, a))
    && (forall a, b, c :: !less(b, a) && !less(c, b) ==> !less(c, a))
  }

  ghost predicate Sorted<T>(less: (T, T) -> bool, s: seq<T>) {
    forall i, j | 0 <= i < j < |s| :: !less(s[j], s[i])
  }

  /** Puts x before the first element it is less than. */
  function Insert<T>(less: (T, T) -> bool, x: T, s: seq<T>): (r: seq<T>)
    ensures |r| == |s| + 1
  {
    if s == [] then [x]
    else if less(x, s[0]) then [x] + s
    else [s[0]] + Insert(less, x, s[1..])
  }

  /** Inserts the elements in order of appearance. */
  function Sort<T>(less: (T, T) -> bool, s: seq<T>): (r: seq<T>)
    ensures |r| == |s|
  {
    if s == [] then [] else Insert(less, s[|s|-1], Sort(less, s[..|s|-1]))
  }

  lemma {:induction false} InsertKeepsElements<T>(less: (T, T) -> bool, x: T, s: seq<T>)
    ensures multiset(Insert(less, x, s)) == multiset(s) + multiset{x}
  {
    if s != [] && !less(x, s[0]) {
      InsertKeepsElements(less, x, s[1..]);
      assert s == [s[0]] + s[1..];
    }
  }

  lemma {:induction false} SortKeepsElements<T>(less: (T, T) -> bool, s: seq<T>)
    ensures multiset(Sort(less, s)) == multiset(s)
  {
    if s != [] {
      var n := |s| - 1;
      SortKeepsElements(less, s[..n]);
      InsertKeepsElements(less, s[n], Sort(less, s[..n]));
      assert s == s[..n] + [s[n]];
    }
  }

  lemma {:induction false} SameElements<T>(a: seq<T>, b: seq<T>, x: T)
    requires multiset(a) == multiset(b)
    ensures x in a <==> x in b
  {
    assert x in multiset(a) <==> x in multiset(b);
  }

  lemma {:induction false} InsertKeepsSorted<T(!new)>(less: (T, T) -> bool, x: T, s: seq<T>)
    requires StrictWeak(less) && Sorted(less, s)
    ensures Sorted(less, Insert(less, x, s))
  {
    if s != [] && !less(x, s[0]) {
      InsertKeepsSorted(less, x, s[1..]);
      var r := Insert(less, x, s[1..]);
      forall j | 0 <= j < |r| ensures !less(r[j], s[0]) {
        InsertKeepsElements(less, x, s[1..]);
        assert r[j] in multiset(r);
        assert r[j] == x || r[j] in s[1..];
      }
    }
  }

  lemma {:induction false} SortIsSorted<T(!new)>(less: (T, T) -> bool, s: seq<T>)
    requires StrictWeak(less)
    ensures Sorted(less, Sort(less, s))
  {
    if s != [] {
      SortIsSorted(less, s[..|s|-1]);
      InsertKeepsSorted(less, s[|s|-1], Sort(less, s[..|s|-1]));
    }
  }

  /** Inserting an element no smaller than a prefix leaves the prefix in place. */
  lemma {:induction false} InsertAfter<T>(less: (T, T) -> bool, x: T, a: seq<T>, b: seq<T>)
    requires forall i | 0 <= i < |a| :: !less(x, a[i])
    ensures Insert(less, x, a + b) == a + Insert(less, x, b)
  {
    if a == [] {
      assert a + b == b;
    } else {
      InsertAfter(less, x, a[1..], b);
      assert (a + b)[1..] == a[1..] + b;
    }
  }

  /** Every two elements at different positions are related. */
  ghost predicate Pairwise<T>(rel: (T, T) -> bool, s: seq<T>) {
    forall i, j | 0 <= i < j < |s| :: rel(s[i], s[j])
  }

  ghost predicate Symmetric<T(!new)>(rel: (T, T) -> bool) {
    forall a, b :: rel(a, b) ==> rel(b, a)
  }

  lemma {:induction false} InsertKeepsPairwise<T(!new)>(less: (T, T) -> bool, rel: (T, T) -> bool, x: T, s: seq<T>)
    requires Symmetric(rel) && Pairwise(rel, s) && forall i | 0 <= i < |s| :: rel(s[i], x)
    ensures Pairwise(rel, Insert(less, x, s))
  {
    if s != [] && !less(x, s[0]) {
      InsertKeepsPairwise(less, rel, x, s[1..]);
      var r := Insert(less, x, s[1..]);
      forall j | 0 <= j < |r| ensures rel(s[0], r[j]) {
        InsertKeepsElements(less, x, s[1..]);
        assert r[j] in multiset(r);
        assert r[j] == x || r[j] in s[1..];
      }
    }
  }

  lemma {:induction false} SortKeepsPairwise<T(!new)>(less: (T, T) -> bool, rel: (T, T) -> bool, s: seq<T>)
    requires Symmetric(rel) && Pairwise(rel, s)
    ensures Pairwise(rel, Sort(less, s))
  {
    if s != [] {
      var n := |s| - 1;
      SortKeepsPairwise(less, rel, s[..n]);
      SortKeepsElements(less, s[..n]);
      forall i | 0 <= i < n ensures rel(Sort(less, s[..n])[i], s[n]) {
        SameElements(Sort(less, s[..n]), s[..n], Sort(less, s[..n])[i]);
      }
      InsertKeepsPairwise(less, rel, s[n], Sort(less, s[..n]));
    }
  }
}
