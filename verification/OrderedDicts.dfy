/** Python's `OrderedDict`: insertion order, and in-place update of a key already present. */
module OrderedDicts {

  ghost predicate NoDup<K>(s: seq<K>) {
    forall i, j :: 0 <= i < j < |s| ==> s[i] != s[j]
  }

  function Elems<K>(s: seq<K>): set<K> {
    set k | k in s
  }

  /** `s` with every occurrence of `k` taken out, the rest in order. */
  function Without<K(==)>(s: seq<K>, k: K): seq<K> {
    if s == [] then [] else (if s[0] == k then [] else [s[0]]) + Without(s[1..], k)
  }

  lemma {:induction false} WithoutExactly<K>(s: seq<K>, k: K)
    ensures Elems(Without(s, k)) == Elems(s) - {k}
    ensures k !in s ==> Without(s, k) == s
    ensures NoDup(s) ==> NoDup(Without(s, k)) && |Without(s, k)| == if k in s then |s| - 1 else |s|
  {
    if s != [] {
      var rest := Without(s[1..], k);
      WithoutExactly(s[1..], k);
      assert Elems(s) == {s[0]} + Elems(s[1..]);
      assert Elems([s[0]] + rest) == {s[0]} + Elems(rest);
      assert forall j :: 0 <= j < |rest| ==> rest[j] in Elems(rest);
    }
  }

  datatype OrderedDict<!K(==), V> = OrderedDict(order: seq<K>, entries: map<K, V>) {

    ghost predicate Valid() {
      NoDup(order) && Elems(order) == entries.Keys
    }

    /** `d[k] = v`: a known key keeps its place, a new one goes last. */
    function Put(k: K, v: V): (r: OrderedDict<K, V>)
      ensures Valid() ==> r.Valid()
      ensures r.entries == entries[k := v]
    {
      OrderedDict(if k in entries then order else order + [k], entries[k := v])
    }

    /** `del d[k]`. */
    function Remove(k: K): (r: OrderedDict<K, V>)
      ensures Valid() ==> r.Valid()
      ensures Valid() && k in entries ==> |r.order| == |order| - 1
      ensures r.entries == entries - {k}
    {
      WithoutExactly(order, k);
      assert k in order <==> k in Elems(order);
      OrderedDict(Without(order, k), entries - {k})
    }

    /** `d.popitem(last=False)`. */
    function PopOldest(): (r: OrderedDict<K, V>)
      requires order != []
      ensures Valid() ==> r.Valid()
      ensures r.order == order[1..] && r.entries == entries - {order[0]}
    {
      assert order == [order[0]] + order[1..];
      OrderedDict(order[1..], entries - {order[0]})
    }

    /** `d.move_to_end(k)`. */
    function MoveToEnd(k: K): (r: OrderedDict<K, V>)
      requires k in entries
      ensures Valid() ==> r.Valid()
      ensures r.entries == entries && r.order == Without(order, k) + [k]
    {
      WithoutExactly(order, k);
      assert Elems(Without(order, k) + [k]) == Elems(order) - {k} + {k};
      assert forall j :: 0 <= j < |Without(order, k)| ==> Without(order, k)[j] in Elems(Without(order, k));
      OrderedDict(Without(order, k) + [k], entries)
    }
  }

  lemma ElemsAppend<K>(s: seq<K>, x: K)
    ensures Elems(s + [x]) == Elems(s) + {x}
  {
  }

  lemma SizeIsOrder<K, V>(d: OrderedDict<K, V>)
    requires d.Valid()
    ensures |d.order| == |d.entries|
  {
    NoDupCard(d.order);
    assert Elems(d.order) == d.entries.Keys;
  }

  lemma {:induction false} NoDupCard<K>(s: seq<K>)
    requires NoDup(s)
    ensures |Elems(s)| == |s|
  {
    if s != [] {
      NoDupCard(s[1..]);
      assert s == [s[0]] + s[1..];
      assert Elems(s) == {s[0]} + Elems(s[1..]);
    }
  }

  lemma SubsetCard<K>(a: set<K>, b: set<K>)
    requires a <= b
    ensures |a| <= |b|
  {
    if a != {} {
      var x :| x in a;
      SubsetCard(a - {x}, b - {x});
    }
  }

  lemma {:induction false} WithoutAppend<K>(a: seq<K>, b: seq<K>, k: K)
    ensures Without(a + b, k) == Without(a, k) + Without(b, k)
  {
    if a == [] {
      assert a + b == b;
    } else {
      assert (a + b)[1..] == a[1..] + b;
      WithoutAppend(a[1..], b, k);
    }
  }
}
