/** The one total order the service sorts by: an instant first, an identifier to break ties.
    Readings, witnesses and approved candidates are all put in this order. */
module Ordering {

  datatype Stamp = Stamp(at: int, id: int)

  predicate Before(a: Stamp, b: Stamp) {
    a.at < b.at || (a.at == b.at && a.id < b.id)
  }

  ghost predicate Increasing<T(!new)>(s: seq<T>, key: T -> Stamp) {
    forall i, j :: 0 <= i < j < |s| ==> Before(key(s[i]), key(s[j]))
  }

  ghost predicate DistinctStamps<T(!new)>(s: seq<T>, key: T -> Stamp) {
    forall i, j :: 0 <= i < j < |s| ==> key(s[i]) != key(s[j])
  }

  ghost function Elements<T(!new)>(s: seq<T>): (r: set<T>)
    ensures forall x :: x in r <==> x in s
  {
    set x | x in s
  }

  function Insert<T(!new)>(x: T, s: seq<T>, key: T -> Stamp): (r: seq<T>)
    ensures multiset(r) == multiset{x} + multiset(s)
    ensures |r| == |s| + 1
  {
    if s == [] || !Before(key(s[0]), key(x)) then
      [x] + s
    else
      assert s == [s[0]] + s[1..];
      [s[0]] + Insert(x, s[1..], key)
  }

  /** A stable sort: elements with equal stamps keep their order. */
  function Sort<T(!new)>(s: seq<T>, key: T -> Stamp): (r: seq<T>)
    ensures multiset(r) == multiset(s)
    ensures |r| == |s|
  {
    if s == [] then []
    else
      assert s == [s[0]] + s[1..];
      Insert(s[0], Sort(s[1..], key), key)
  }

  lemma SortElements<T(!new)>(s: seq<T>, key: T -> Stamp)
    ensures Elements(Sort(s, key)) == Elements(s)
    ensures forall x :: x in Sort(s, key) <==> x in s
  {
    forall x
      ensures x in Sort(s, key) <==> x in s
    {
      assert x in Sort(s, key) <==> x in multiset(Sort(s, key));
      assert x in s <==> x in multiset(s);
    }
  }

  lemma {:induction false} InsertIncreasing<T(!new)>(x: T, s: seq<T>, key: T -> Stamp)
    requires Increasing(s, key)
    requires forall y :: y in s ==> key(y) != key(x)
    ensures Increasing(Insert(x, s, key), key)
    ensures forall y :: y in Insert(x, s, key) <==> y == x || y in s
  {
    if s == [] || !Before(key(s[0]), key(x)) {
      assert forall i :: 0 <= i < |s| ==> Before(key(x), key(s[i]));
    } else {
      InsertIncreasing(x, s[1..], key);
      var rest := Insert(x, s[1..], key);
      assert forall i :: 0 <= i < |rest| ==> rest[i] in rest;
      assert forall y :: y in s[1..] ==> Before(key(s[0]), key(y));
      assert forall y :: y in s <==> y == s[0] || y in s[1..];
    }
  }

  lemma {:induction false} SortIncreasing<T(!new)>(s: seq<T>, key: T -> Stamp)
    requires DistinctStamps(s, key)
    ensures Increasing(Sort(s, key), key)
  {
    if s != [] {
      SortIncreasing(s[1..], key);
      SortElements(s[1..], key);
      InsertIncreasing(s[0], Sort(s[1..], key), key);
    }
  }

  lemma HeadIsLeast<T(!new)>(s: seq<T>, key: T -> Stamp, x: T)
    requires Increasing(s, key) && x in s
    ensures x == s[0] || Before(key(s[0]), key(x))
    ensures x in s[1..] <==> x != s[0]
  {
    var i :| 0 <= i < |s| && s[i] == x;
    forall j | 1 <= j < |s|
      ensures s[j] != s[0]
    {
      assert Before(key(s[0]), key(s[j]));
    }
  }

  lemma EmptyElements<T(!new)>(s: seq<T>)
    ensures s == [] <==> Elements(s) == {}
  {
    if s != [] {
      assert s[0] in Elements(s);
    }
  }

  /** A set has at most one arrangement in increasing order. */
  lemma {:induction false} IncreasingIsUnique<T(!new)>(a: seq<T>, b: seq<T>, key: T -> Stamp)
    requires Increasing(a, key) && Increasing(b, key)
    requires Elements(a) == Elements(b)
    ensures a == b
  {
    EmptyElements(a);
    EmptyElements(b);
    if a != [] {
      assert a[0] in Elements(b) && b[0] in Elements(a);
      HeadIsLeast(a, key, b[0]);
      HeadIsLeast(b, key, a[0]);
      assert a[0] == b[0];
      forall x
        ensures x in Elements(a[1..]) <==> x in Elements(b[1..])
      {
        if x in Elements(a) {
          HeadIsLeast(a, key, x);
          HeadIsLeast(b, key, x);
        }
        assert a == [a[0]] + a[1..] && b == [b[0]] + b[1..];
      }
      IncreasingIsUnique(a[1..], b[1..], key);
    }
  }

  // ---- Sorting with repetitions ----

  ghost predicate Nondecreasing<T(!new)>(s: seq<T>, key: T -> Stamp) {
    forall i, j :: 0 <= i < j < |s| ==> !Before(key(s[j]), key(s[i]))
  }

  lemma {:induction false} InsertNondecreasing<T(!new)>(x: T, s: seq<T>, key: T -> Stamp)
    requires Nondecreasing(s, key)
    ensures Nondecreasing(Insert(x, s, key), key)
    ensures forall y :: y in Insert(x, s, key) <==> y == x || y in s
  {
    if s != [] && Before(key(s[0]), key(x)) {
      InsertNondecreasing(x, s[1..], key);
      var rest := Insert(x, s[1..], key);
      assert forall i :: 0 <= i < |rest| ==> rest[i] in rest;
      assert forall y :: y in s[1..] ==> !Before(key(y), key(s[0]));
      assert forall y :: y in s <==> y == s[0] || y in s[1..];
    }
  }

  lemma {:induction false} SortNondecreasing<T(!new)>(s: seq<T>, key: T -> Stamp)
    ensures Nondecreasing(Sort(s, key), key)
  {
    if s != [] {
      SortNondecreasing(s[1..], key);
      InsertNondecreasing(s[0], Sort(s[1..], key), key);
    }
  }

  /** When equal stamps mean equal elements, a multiset has at most one arrangement in order. */
  lemma {:induction false} NondecreasingIsUnique<T(!new)>(a: seq<T>, b: seq<T>, key: T -> Stamp)
    requires Nondecreasing(a, key) && Nondecreasing(b, key) && multiset(a) == multiset(b)
    requires forall x, y :: x in a && y in a && key(x) == key(y) ==> x == y
    ensures a == b
  {
    if a == [] {
      assert |multiset(b)| == 0;
    } else {
      SameFirst(a, b, key);
      TailElements(a);
      TailElements(b);
      NondecreasingIsUnique(a[1..], b[1..], key);
    }
  }

  lemma TailElements<T(!new)>(s: seq<T>)
    requires s != []
    ensures multiset(s[1..]) == multiset(s) - multiset{s[0]}
    ensures s == [s[0]] + s[1..]
  {
    assert s == [s[0]] + s[1..];
  }

  lemma SameFirst<T(!new)>(a: seq<T>, b: seq<T>, key: T -> Stamp)
    requires a != [] && Nondecreasing(a, key) && Nondecreasing(b, key) && multiset(a) == multiset(b)
    requires forall x, y :: x in a && y in a && key(x) == key(y) ==> x == y
    ensures b != [] && a[0] == b[0]
  {
    assert |multiset(a)| == |multiset(b)|;
    assert a[0] in multiset(b) && b[0] in multiset(a);
    assert !Before(key(b[0]), key(a[0])) && !Before(key(a[0]), key(b[0]));
  }
}
