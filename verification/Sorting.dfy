/** Sorting by a strict order. The program sorts with Go's library sorts; all that
    matters about them is that the result is the sorted permutation, which is unique
    as soon as the order tells the elements apart (`StrictlySortedUnique`). */
module Sorting {

  ghost predicate StrictWeakOrder<T(!new)>(lt: (T, T) -> bool) {
    && (forall a :: !lt(a, a))
    && (forall a, b, c :: lt(a, b) && lt(b, c) ==> lt(a, c))
    && (forall a, b, c :: lt(a, c) ==> lt(a, b) || lt(b, c))
  }

  predicate Sorted<T>(s: seq<T>, lt: (T, T) -> bool) {
    forall i, j | 0 <= i < j < |s| :: !lt(s[j], s[i])
  }

  ghost predicate StrictlySorted<T>(s: seq<T>, lt: (T, T) -> bool) {
    forall i, j | 0 <= i < j < |s| :: lt(s[i], s[j])
  }

  /** The order tells apart any two elements of `s` that sit at different places. */
  ghost predicate Separates<T>(lt: (T, T) -> bool, s: seq<T>) {
    forall i, j | 0 <= i < j < |s| :: lt(s[i], s[j]) || lt(s[j], s[i])
  }

  function Insert<T>(x: T, s: seq<T>, lt: (T, T) -> bool): seq<T> {
    if s == [] || !lt(s[0], x) then [x] + s else [s[0]] + Insert(x, s[1..], lt)
  }

  /** Stable insertion sort. */
  function Sort<T>(s: seq<T>, lt: (T, T) -> bool): seq<T> {
    if s == [] then [] else Insert(s[0], Sort(s[1..], lt), lt)
  }

  lemma {:induction false} InsertPermutes<T>(x: T, s: seq<T>, lt: (T, T) -> bool)
    ensures multiset(Insert(x, s, lt)) == multiset{x} + multiset(s)
  {
    if s == [] || !lt(s[0], x) {
    } else {
      InsertPermutes(x, s[1..], lt);
      assert s == [s[0]] + s[1..];
    }
  }

  lemma {:induction false} SortPermutes<T>(s: seq<T>, lt: (T, T) -> bool)
    ensures multiset(Sort(s, lt)) == multiset(s)
    ensures |Sort(s, lt)| == |s|
  {
    if s == [] {
    } else {
      SortPermutes(s[1..], lt);
      InsertPermutes(s[0], Sort(s[1..], lt), lt);
      assert s == [s[0]] + s[1..];
      assert multiset(Sort(s, lt)) == multiset(s);
    }
    assert |Sort(s, lt)| == |multiset(Sort(s, lt))|;
  }

  lemma {:induction false} InsertSorted<T(!new)>(x: T, s: seq<T>, lt: (T, T) -> bool)
    requires StrictWeakOrder(lt) && Sorted(s, lt)
    ensures Sorted(Insert(x, s, lt), lt)
  {
    if s == [] || !lt(s[0], x) {
      forall j | 0 <= j < |s| ensures !lt(s[j], x) {
        assert !lt(s[0], x) && !lt(s[j], s[0]);
      }
    } else {
      var rest := Insert(x, s[1..], lt);
      InsertSorted(x, s[1..], lt);
      InsertPermutes(x, s[1..], lt);
      forall j | 0 <= j < |rest| ensures !lt(rest[j], s[0]) {
        assert rest[j] in multiset(rest);
        assert rest[j] == x || rest[j] in multiset(s[1..]);
        if rest[j] != x {
          assert rest[j] in s[1..];
        }
      }
    }
  }

  lemma {:induction false} SortSorted<T(!new)>(s: seq<T>, lt: (T, T) -> bool)
    requires StrictWeakOrder(lt)
    ensures Sorted(Sort(s, lt), lt)
  {
    if s == [] {
    } else {
      SortSorted(s[1..], lt);
      InsertSorted(s[0], Sort(s[1..], lt), lt);
    }
  }

  lemma SortElements<T(!new)>(s: seq<T>, lt: (T, T) -> bool)
    ensures forall x :: x in Sort(s, lt) <==> x in s
  {
    SortPermutes(s, lt);
    forall x ensures x in Sort(s, lt) <==> x in s {
      assert x in Sort(s, lt) <==> x in multiset(Sort(s, lt));
      assert x in s <==> x in multiset(s);
    }
  }

  lemma TailMultiset<T>(s: seq<T>)
    requires s != []
    ensures multiset(s[1..]) == multiset(s) - multiset{s[0]}
  {
    assert s == [s[0]] + s[1..];
  }

  lemma HasElement<T>(t: seq<T>)
    ensures t == [] || exists x :: x in t
  {
    if t != [] {
      assert t[0] in t;
    }
  }

  /** A strictly sorted sequence is determined by its elements. */
  lemma {:induction false} StrictlySortedUnique<T(!new)>(s: seq<T>, t: seq<T>, lt: (T, T) -> bool)
    requires StrictWeakOrder(lt)
    requires StrictlySorted(s, lt) && StrictlySorted(t, lt)
    requires forall x :: x in s <==> x in t
    ensures s == t
  {
    if s == [] {
      HasElement(t);
    } else {
      assert s[0] in t;
      assert t != [] && t[0] in s;
      var i :| 0 <= i < |s| && s[i] == t[0];
      var j :| 0 <= j < |t| && t[j] == s[0];
      assert s[0] == t[0];
      forall x ensures x in s[1..] <==> x in t[1..] {
        if x in s[1..] {
          assert x in s;
          assert x in t && x != t[0];
          assert x in t[1..];
        }
        if x in t[1..] {
          assert x in t;
          assert x in s && x != s[0];
          assert x in s[1..];
        }
      }
      StrictlySortedUnique(s[1..], t[1..], lt);
      assert s == [s[0]] + s[1..] && t == [t[0]] + t[1..];
    }
  }

  lemma {:induction false} InsertStrict<T(!new)>(x: T, s: seq<T>, lt: (T, T) -> bool)
    requires StrictWeakOrder(lt) && StrictlySorted(s, lt)
    requires forall y :: y in s ==> lt(x, y) || lt(y, x)
    ensures StrictlySorted(Insert(x, s, lt), lt)
  {
    if s == [] {
    } else if !lt(s[0], x) {
      assert s[0] in s;
    } else {
      var rest := Insert(x, s[1..], lt);
      InsertStrict(x, s[1..], lt);
      InsertPermutes(x, s[1..], lt);
      forall j | 0 <= j < |rest| ensures lt(s[0], rest[j]) {
        assert rest[j] in multiset(rest);
        assert rest[j] == x || rest[j] in s[1..];
      }
    }
  }

  lemma {:induction false} SortStrict<T(!new)>(s: seq<T>, lt: (T, T) -> bool)
    requires StrictWeakOrder(lt)
    requires Separates(lt, s)
    ensures StrictlySorted(Sort(s, lt), lt)
  {
    if s == [] {
    } else {
      SortStrict(s[1..], lt);
      SortElements(s[1..], lt);
      InsertStrict(s[0], Sort(s[1..], lt), lt);
    }
  }

  // ---- the elements of a set in order

  ghost predicate Separated<T>(lt: (T, T) -> bool, s: set<T>) {
    forall x, y | x in s && y in s :: x == y || lt(x, y) || lt(y, x)
  }

  ghost predicate IsSortedSet<T(!new)>(r: seq<T>, s: set<T>, lt: (T, T) -> bool) {
    StrictlySorted(r, lt) && forall x :: x in r <==> x in s
  }

  lemma {:induction false} SortedSetExists<T(!new)>(s: set<T>, lt: (T, T) -> bool) returns (r: seq<T>)
    requires StrictWeakOrder(lt) && Separated(lt, s)
    ensures IsSortedSet(r, s, lt)
  {
    if s == {} {
      r := [];
    } else {
      var x :| x in s;
      var rest := SortedSetExists(s - {x}, lt);
      r := Insert(x, rest, lt);
      InsertPermutes(x, rest, lt);
      InsertStrict(x, rest, lt);
      forall y ensures y in r <==> y in s {
        assert y in r <==> y in multiset(r);
        assert y in rest <==> y in multiset(rest);
      }
    }
  }

  ghost function SortedSet<T(!new)>(s: set<T>, lt: (T, T) -> bool): (r: seq<T>)
    requires StrictWeakOrder(lt) && Separated(lt, s)
    ensures IsSortedSet(r, s, lt)
  {
    assert exists q :: IsSortedSet(q, s, lt) by {
      var q := SortedSetExists(s, lt);
    }
    var r :| IsSortedSet(r, s, lt);
    r
  }

  /** Collecting a set in any order and sorting gives its elements in order. */
  lemma CollectedThenSorted<T(!new)>(collected: seq<T>, s: set<T>, lt: (T, T) -> bool)
    requires StrictWeakOrder(lt) && Separated(lt, s)
    requires forall x :: x in collected <==> x in s
    requires forall i, j | 0 <= i < j < |collected| :: collected[i] != collected[j]
    ensures Sort(collected, lt) == SortedSet(s, lt)
  {
    forall i, j | 0 <= i < j < |collected| ensures lt(collected[i], collected[j]) || lt(collected[j], collected[i]) {
      assert collected[i] in s && collected[j] in s;
    }
    SortStrict(collected, lt);
    SortElements(collected, lt);
    StrictlySortedUnique(Sort(collected, lt), SortedSet(s, lt), lt);
  }
}
