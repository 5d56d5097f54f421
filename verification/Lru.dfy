/** The one bounded-table discipline the gateway uses three times: least recently used goes first.
    Orders are oldest first, as in an `OrderedDict`. */
module Lru {
  import opened OrderedDicts

  /** Look a key up, inserting it and dropping the oldest key when the table is full. */
  function Touch<K(==)>(cap: nat, order: seq<K>, k: K): seq<K> {
    var kept := if k in order || |order| < cap || order == [] then order else order[1..];
    Without(kept, k) + [k]
  }

  /** The table after a whole history of look-ups, starting empty. */
  function Run<K(==)>(cap: nat, h: seq<K>): seq<K> {
    if h == [] then [] else Touch(cap, Run(cap, h[..|h| - 1]), h[|h| - 1])
  }

  /** What was touched after the last touch of `k`. */
  function Since<K(==)>(h: seq<K>, k: K): (r: seq<K>)
    ensures k !in r && |r| <= |h|
    ensures Elems(r) <= Elems(h)
  {
    if h == [] || h[|h| - 1] == k then [] else
    assert Elems(h) == Elems(h[..|h| - 1]) + {h[|h| - 1]};
    Since(h[..|h| - 1], k) + [h[|h| - 1]]
  }

  /** The history index at which the entry `k` holds now was created. */
  function Born<K(==)>(cap: nat, h: seq<K>, k: K): nat {
    if h == [] then 0
    else
      var h' := h[..|h| - 1];
      if h[|h| - 1] == k && k !in Run(cap, h') then |h'| else Born(cap, h', k)
  }

  lemma HistoryStep<K>(cap: nat, h: seq<K>, x: K, k: K)
    ensures Run(cap, h + [x]) == Touch(cap, Run(cap, h), x)
    ensures Born(cap, h + [x], k) == if x == k && k !in Run(cap, h) then |h| else Born(cap, h, k)
  {
    assert (h + [x])[..|h|] == h;
  }

  ghost predicate Recency<K>(cap: nat, h: seq<K>, order: seq<K>) {
    && NoDup(order)
    && |order| <= cap
    && (forall p :: 0 <= p < |order| ==>
          order[p] in h && Elems(order[p + 1..]) == Elems(Since(h, order[p])))
  }

  lemma RecencyStep<K>(cap: nat, h: seq<K>, x: K, order: seq<K>)
    requires cap > 0 && Recency(cap, h, order)
    ensures Recency(cap, h + [x], Touch(cap, order, x))
  {
    WithoutExactly(order, x);
    if x !in order && |order| == cap {
      WithoutExactly(order[1..], x);
      AppendKept(cap, h, x, order[1..]);
    } else {
      AppendKept(cap, h, x, order);
    }
  }

  lemma AppendKept<K>(cap: nat, h: seq<K>, x: K, kept: seq<K>)
    requires Recency(cap, h, kept) && |Without(kept, x)| < cap
    ensures Recency(cap, h + [x], Without(kept, x) + [x])
  {
    var rest := Without(kept, x);
    var after := rest + [x];
    WithoutExactly(kept, x);
    assert NoDup(after) by {
      assert forall j :: 0 <= j < |rest| ==> rest[j] in Elems(rest);
    }
    forall p | 0 <= p < |after|
      ensures after[p] in h + [x] && Elems(after[p + 1..]) == Elems(Since(h + [x], after[p]))
    {
      SinceAppend(h, x, after[p]);
      if p < |rest| {
        var q := KeptAt(kept, x, p);
      } else {
        assert after[p + 1..] == [];
      }
    }
  }

  /** Where the element at `p` stood before the touch, and what follows it afterwards. */
  lemma KeptAt<K>(kept: seq<K>, x: K, p: nat) returns (q: nat)
    requires NoDup(kept) && p < |Without(kept, x)|
    ensures q < |kept| && kept[q] == Without(kept, x)[p] != x
    ensures Elems((Without(kept, x) + [x])[p + 1..]) == Elems(kept[q + 1..]) + {x}
  {
    q := Position(kept, x, p);
    WithoutExactly(kept, x);
    WithoutSplit(kept, x, q);
    var before, behind := Without(kept[..q], x), Without(kept[q + 1..], x);
    SplitIndex(before, kept[q], behind, p);
    assert (Without(kept, x) + [x])[p + 1..] == behind + [x];
    WithoutExactly(kept[q + 1..], x);
    ElemsAppend(behind, x);
  }

  lemma Position<K>(kept: seq<K>, x: K, p: nat) returns (q: nat)
    requires p < |Without(kept, x)|
    ensures q < |kept| && kept[q] == Without(kept, x)[p] != x
  {
    WithoutExactly(kept, x);
    assert Without(kept, x)[p] in Elems(Without(kept, x));
    q :| 0 <= q < |kept| && kept[q] == Without(kept, x)[p];
  }

  lemma SplitIndex<K>(a: seq<K>, y: K, b: seq<K>, p: nat)
    requires NoDup(a + [y] + b) && p < |a + [y] + b| && (a + [y] + b)[p] == y
    ensures p == |a| && (a + [y] + b)[p + 1..] == b
  {
    assert (a + [y] + b)[|a|] == y;
  }

  lemma SinceAppend<K>(h: seq<K>, x: K, k: K)
    ensures Since(h + [x], k) == if x == k then [] else Since(h, k) + [x]
    ensures x != k ==> Elems(Since(h + [x], k)) == Elems(Since(h, k)) + {x}
  {
    assert (h + [x])[..|h|] == h;
    ElemsAppend(Since(h, k), x);
  }

  /** Taking `x` out does not reorder what stands around a kept element. */
  lemma WithoutSplit<K>(s: seq<K>, x: K, q: nat)
    requires q < |s| && s[q] != x
    ensures Without(s, x) == Without(s[..q], x) + [s[q]] + Without(s[q + 1..], x)
  {
    assert s == s[..q] + s[q..];
    WithoutAppend(s[..q], s[q..], x);
    assert s[q..][1..] == s[q + 1..];
  }

  lemma {:induction false} RunRecency<K>(cap: nat, h: seq<K>)
    requires cap > 0
    ensures Recency(cap, h, Run(cap, h))
  {
    if h != [] {
      var h' := h[..|h| - 1];
      RunRecency(cap, h');
      RecencyStep(cap, h', h[|h| - 1], Run(cap, h'));
      assert h == h' + [h[|h| - 1]];
    }
  }

  /** Retention, exactly: a key is still held if and only if it was touched and fewer than `cap`
      distinct other keys were touched since its last touch. */
  lemma {:induction false} Retained<K>(cap: nat, h: seq<K>, k: K)
    requires cap > 0
    ensures k in Run(cap, h) <==> k in h && |Elems(Since(h, k))| < cap
  {
    RunRecency(cap, h);
    var order := Run(cap, h);
    if k in order {
      var p :| 0 <= p < |order| && order[p] == k;
      NoDupCard(order[p + 1..]);
    } else if k in h {
      Evicted(cap, h, k);
    }
  }

  lemma {:induction false} Evicted<K>(cap: nat, h: seq<K>, k: K)
    requires cap > 0 && k in h && k !in Run(cap, h)
    ensures |Elems(Since(h, k))| >= cap
  {
    var h', x := h[..|h| - 1], h[|h| - 1];
    assert h == h' + [x];
    var order := Run(cap, h');
    if x != k {
      SinceAppend(h', x, k);
      if k !in order {
        Evicted(cap, h', k);
        SubsetCard(Elems(Since(h', k)), Elems(Since(h, k)));
      } else {
        RunRecency(cap, h');
        EvictedNow(cap, h', x, order, k);
      }
    }
  }

  /** Only a full table drops a key, only its oldest, and only for a key it does not hold. */
  lemma EvictedNow<K>(cap: nat, h: seq<K>, x: K, order: seq<K>, k: K)
    requires cap > 0 && Recency(cap, h, order) && x != k
    requires k in order && k !in Touch(cap, order, x)
    ensures |Elems(Since(h, k)) + {x}| >= cap
  {
    OnlyOldestGoes(cap, order, x, k);
    NoDupCard(order[1..]);
    assert x !in Elems(order[1..]);
  }

  lemma OnlyOldestGoes<K>(cap: nat, order: seq<K>, x: K, k: K)
    requires x != k && |order| <= cap && k in order && k !in Touch(cap, order, x)
    ensures order[0] == k && x !in order && |order| == cap
  {
    WithoutExactly(order, x);
    WithoutExactly(order[1..], x);
    assert k in Elems(Without(order, x));
    assert order == [order[0]] + order[1..];
    assert k in Elems(Without(order[1..], x)) + {order[0]};
  }

  /** In every gap between look-ups of `k` after index `i`, fewer than `cap` distinct other keys. */
  ghost predicate ShortGaps<K>(cap: nat, h: seq<K>, i: nat, k: K) {
    forall m :: i < m < |h| && h[m] == k ==> |Elems(Since(h[..m], k))| < cap
  }

  lemma ShortGapsStep<K>(cap: nat, h: seq<K>, x: K, i: nat, k: K)
    requires i < |h|
    ensures ShortGaps(cap, h + [x], i, k)
            <==> ShortGaps(cap, h, i, k) && (x == k ==> |Elems(Since(h, k))| < cap)
  {
    var g := h + [x];
    assert forall m :: 0 <= m <= |h| ==> g[..m] == h[..m];
    assert g[..|h|] == h;
    if ShortGaps(cap, g, i, k) {
      assert g[|h|] == x;
      forall m | i < m < |h| && h[m] == k ensures |Elems(Since(h[..m], k))| < cap {
        assert g[m] == k && g[..m] == h[..m];
      }
    }
  }

  /** Two look-ups of one key see the same entry exactly when every gap in between is short. */
  lemma {:induction false} SameEntry<K>(cap: nat, h: seq<K>, i: nat, k: K)
    requires cap > 0 && i < |h| && h[i] == k
    ensures Born(cap, h[..i + 1], k) == Born(cap, h, k) <==> ShortGaps(cap, h, i, k)
    ensures Born(cap, h[..i + 1], k) <= i && Born(cap, h[..i + 1], k) <= Born(cap, h, k) < |h|
  {
    BornBound(cap, h[..i + 1], k);
    if |h| == i + 1 {
      assert h[..i + 1] == h;
    } else {
      var h', x := h[..|h| - 1], h[|h| - 1];
      assert h == h' + [x] && h'[..i + 1] == h[..i + 1];
      SameEntry(cap, h', i, k);
      ShortGapsStep(cap, h', x, i, k);
      assert k in h' by { assert h'[i] == k; }
      Retained(cap, h', k);
    }
  }

  lemma {:induction false} BornBound<K>(cap: nat, h: seq<K>, k: K)
    requires h != []
    ensures Born(cap, h, k) < |h|
  {
    if |h| > 1 { BornBound(cap, h[..|h| - 1], k); }
  }

  /** If two look-ups of `k` see different entries, at least `cap` distinct other keys
      were looked up strictly between them. */
  lemma {:induction false} LostEntry<K>(cap: nat, h: seq<K>, i: nat, j: nat, k: K)
    requires cap > 0 && i < j < |h| && h[i] == k && h[j] == k
    requires Born(cap, h[..i + 1], k) != Born(cap, h[..j + 1], k)
    ensures |Elems(h[i + 1..j]) - {k}| >= cap
  {
    SameEntry(cap, h[..j + 1], i, k);
    assert h[..j + 1][..i + 1] == h[..i + 1];
    var m :| i < m <= j && h[..j + 1][m] == k && |Elems(Since(h[..j + 1][..m], k))| >= cap;
    LongGap(cap, h, i, m, j, k);
  }

  lemma LongGap<K>(cap: nat, h: seq<K>, i: nat, m: nat, j: nat, k: K)
    requires i < m <= j < |h| && h[i] == k && |Elems(Since(h[..j + 1][..m], k))| >= cap
    ensures |Elems(h[i + 1..j]) - {k}| >= cap
  {
    assert h[..j + 1][..m] == h[..m];
    SinceSuffix(h[..m], i, k);
    assert h[..m][i + 1..] == h[i + 1..m];
    assert Elems(h[i + 1..m]) <= Elems(h[i + 1..j]) by {
      assert h[i + 1..j] == h[i + 1..m] + h[m..j];
    }
    SubsetCard(Elems(Since(h[..m], k)), Elems(h[i + 1..j]) - {k});
  }

  lemma {:induction false} SinceSuffix<K>(h: seq<K>, i: nat, k: K)
    requires i < |h| && h[i] == k
    ensures Elems(Since(h, k)) <= Elems(h[i + 1..])
  {
    if h[|h| - 1] != k {
      var h' := h[..|h| - 1];
      SinceSuffix(h', i, k);
      assert h[i + 1..] == h'[i + 1..] + [h[|h| - 1]];
      assert Elems(Since(h, k)) == Elems(Since(h', k)) + {h[|h| - 1]};
    }
  }
}
