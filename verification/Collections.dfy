/** Two small collections of the runtime: a filter and a map that remembers insertion order. */
module Collections {

  function Filter<T(!new)>(s: seq<T>, keep: T -> bool): (r: seq<T>)
    ensures forall x :: x in r <==> x in s && keep(x)
    ensures |r| <= |s|
  {
    if s == [] then []
    else if keep(s[0]) then [s[0]] + Filter(s[1..], keep)
    else Filter(s[1..], keep)
  }

  ghost predicate Distinct<T(!new)>(s: seq<T>) {
    forall i, j :: 0 <= i < j < |s| ==> s[i] != s[j]
  }

  ghost predicate Pairwise<T(!new)>(s: seq<T>, rel: (T, T) -> bool) {
    forall i, j :: 0 <= i < j < |s| ==> rel(s[i], s[j])
  }

  /** A relation that holds between every earlier and later element survives filtering. */
  lemma {:induction false} FilterPairwise<T(!new)>(s: seq<T>, keep: T -> bool, rel: (T, T) -> bool)
    requires Pairwise(s, rel)
    ensures Pairwise(Filter(s, keep), rel)
  {
    if s != [] {
      FilterPairwise(s[1..], keep, rel);
      var rest := Filter(s[1..], keep);
      forall j | 0 <= j < |rest|
        ensures rel(s[0], rest[j])
      {
        assert rest[j] in s[1..];
        var k :| 1 <= k < |s| && s[k] == rest[j];
      }
    }
  }

  lemma FilterHead<T(!new)>(s: seq<T>, keep: T -> bool)
    requires s != []
    ensures Filter(s, keep) == (if keep(s[0]) then [s[0]] else []) + Filter(s[1..], keep)
  {
  }

  lemma ConcatIsAssociative<T>(x: seq<T>, y: seq<T>, z: seq<T>)
    ensures x + (y + z) == (x + y) + z
  {
  }

  lemma {:induction false} FilterConcat<T(!new)>(a: seq<T>, b: seq<T>, keep: T -> bool)
    ensures Filter(a + b, keep) == Filter(a, keep) + Filter(b, keep)
  {
    hide Filter;
    if a == [] {
      FilterNothing(keep);
      assert a + b == b && Filter(a, keep) + Filter(b, keep) == Filter(b, keep);
    } else {
      assert (a + b)[0] == a[0] && (a + b)[1..] == a[1..] + b;
      FilterConcat(a[1..], b, keep);
      FilterHead(a, keep);
      FilterHead(a + b, keep);
      ConcatIsAssociative(if keep(a[0]) then [a[0]] else [], Filter(a[1..], keep), Filter(b, keep));
    }
  }

  lemma FilterNothing<T(!new)>(keep: T -> bool)
    ensures Filter([], keep) == []
  {
  }

  lemma {:induction false} FilterAll<T(!new)>(s: seq<T>, keep: T -> bool)
    requires forall x :: x in s ==> keep(x)
    ensures Filter(s, keep) == s
  {
    if s != [] {
      FilterAll(s[1..], keep);
      assert s == [s[0]] + s[1..];
    }
  }

  /** A dictionary with its keys in order of first insertion. */
  datatype RawMap<K(==,!new), V> = RawMap(order: seq<K>, entries: map<K, V>) {

    ghost predicate Valid() {
      && Distinct(order)
      && (forall k :: k in order <==> k in entries)
    }

    function Values(): (r: seq<V>)
      requires Valid()
      ensures |r| == |order|
      ensures forall i :: 0 <= i < |order| ==> order[i] in entries && r[i] == entries[order[i]]
    {
      seq(|order|, i requires 0 <= i < |order| => assert order[i] in order; entries[order[i]])
    }
  }

  type OrderedMap<K(==,!new), V> = m: RawMap<K, V> | m.Valid() witness RawMap([], map[])

  function EmptyMap<K(==,!new), V>(): (r: OrderedMap<K, V>) {
    RawMap([], map[])
  }

  /** Replacing the value of a present key keeps the key's place. */
  function Put<K(==,!new), V>(m: OrderedMap<K, V>, k: K, v: V): (r: OrderedMap<K, V>)
    ensures r.entries == m.entries[k := v]
    ensures k in m.entries ==> r.order == m.order
    ensures k !in m.entries ==> r.order == m.order + [k]
    ensures k !in m.entries ==> r.Values() == m.Values() + [v]
  {
    if k in m.entries then RawMap(m.order, m.entries[k := v])
    else RawMap(m.order + [k], m.entries[k := v])
  }

  lemma ValuesAreEntries<K(!new), V(!new)>(m: OrderedMap<K, V>)
    ensures forall v :: v in m.Values() <==> exists k :: k in m.entries && m.entries[k] == v
  {
    forall v
      ensures v in m.Values() <==> exists k :: k in m.entries && m.entries[k] == v
    {
      if v in m.Values() {
        var i :| 0 <= i < |m.order| && m.Values()[i] == v;
        assert m.order[i] in m.order;
      }
      if k :| k in m.entries && m.entries[k] == v {
        assert k in m.order;
        var i :| 0 <= i < |m.order| && m.order[i] == k;
        assert m.Values()[i] == v;
      }
    }
  }

  lemma SubsetIsSmaller<T>(a: set<T>, b: set<T>)
    requires a <= b
    ensures |a| <= |b|
  {
    if a != {} {
      var x :| x in a;
      SubsetIsSmaller(a - {x}, b - {x});
    }
  }
}
