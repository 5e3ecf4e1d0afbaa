/** pandas `groupby(key)[column].agg(['size', 'nunique'])`, written out.
    A group is the subsequence of records with one key; the aggregation is
    computed in one pass as a map from key to accumulator (a count and the
    set of values seen), and the rows come out one per key. Lemmas tie the
    accumulator to the groups it summarises. */
module GroupBy {
  import opened Cells

  /** The records of `xs` whose key is `k`, in their order: one group. */
  function Group<T, K(==)>(xs: seq<T>, key: T -> K, k: K): (g: seq<T>)
    ensures |g| <= |xs|
    ensures forall i :: 0 <= i < |g| ==> key(g[i]) == k
    ensures |g| > 0 <==> exists i :: 0 <= i < |xs| && key(xs[i]) == k
    decreases |xs|
  {
    if xs == [] then []
    else
      var g := Group(xs[..|xs| - 1], key, k);
      assert forall i :: 0 <= i < |xs| - 1 ==> xs[..|xs| - 1][i] == xs[i];
      g + (if key(xs[|xs| - 1]) == k then [xs[|xs| - 1]] else [])
  }

  /** A property holds of a whole group exactly when it holds of every
      record with the group's key. */
  lemma {:induction false} GroupAll<T, K>(xs: seq<T>, key: T -> K, k: K, p: T -> bool)
    ensures (forall i :: 0 <= i < |Group(xs, key, k)| ==> p(Group(xs, key, k)[i])) <==>
      (forall j :: 0 <= j < |xs| && key(xs[j]) == k ==> p(xs[j]))
    decreases |xs|
  {
    if xs != [] {
      var q, x := xs[..|xs| - 1], xs[|xs| - 1];
      GroupAll(q, key, k, p);
      var g, gq := Group(xs, key, k), Group(q, key, k);
      assert g == gq + (if key(x) == k then [x] else []);
      assert forall i :: 0 <= i < |gq| ==> g[i] == gq[i];
      assert forall j :: 0 <= j < |q| ==> q[j] == xs[j];
      if forall i :: 0 <= i < |g| ==> p(g[i]) {
        assert forall i :: 0 <= i < |gq| ==> p(gq[i]);
        if key(x) == k {
          assert g[|g| - 1] == x;
        }
      }
    }
  }

  /** Every record of a group is a record of the sequence. */
  lemma {:induction false} GroupMembers<T, K>(xs: seq<T>, key: T -> K, k: K)
    ensures forall x :: x in Group(xs, key, k) ==> x in xs
    decreases |xs|
  {
    if xs != [] {
      var q := xs[..|xs| - 1];
      GroupMembers(q, key, k);
      assert forall x :: x in q ==> x in xs;
    }
  }

  /** The distinct values of `val` over `g` (`nunique`, before taking the
      size). */
  function Distinct<T, V(==)>(g: seq<T>, val: T -> V): (s: set<V>)
    ensures forall i :: 0 <= i < |g| ==> val(g[i]) in s
    ensures forall v :: v in s ==> exists i :: 0 <= i < |g| && val(g[i]) == v
    decreases |g|
  {
    if g == [] then {}
    else
      var s := Distinct(g[..|g| - 1], val);
      assert forall i :: 0 <= i < |g| - 1 ==> g[..|g| - 1][i] == g[i];
      s + {val(g[|g| - 1])}
  }

  /** A group has at least one and at most as many distinct values as
      records. */
  lemma {:induction false} DistinctBounds<T, V>(g: seq<T>, val: T -> V)
    ensures |Distinct(g, val)| <= |g|
    ensures |g| > 0 ==> |Distinct(g, val)| > 0
    decreases |g|
  {
    if g != [] {
      DistinctBounds(g[..|g| - 1], val);
      assert val(g[0]) in Distinct(g, val);
    }
  }

  /** The running summary of one group: how many records, and which
      values among them. */
  datatype Acc<V> = Acc(size: nat, distinct: set<V>)

  /** The group-by as a single pass over the records, one accumulator per
      key seen so far. */
  function Tally<T, K(==), V(==)>(xs: seq<T>, key: T -> K, val: T -> V): (m: map<K, Acc<V>>)
    ensures forall k :: k in m ==> 1 <= |m[k].distinct| <= m[k].size
    decreases |xs|
  {
    if xs == [] then map[]
    else
      var m := Tally(xs[..|xs| - 1], key, val);
      var x := xs[|xs| - 1];
      var a := if key(x) in m then m[key(x)] else Acc(0, {});
      assert |a.distinct + {val(x)}| <= |a.distinct| + 1 by {
        if val(x) in a.distinct {
          assert a.distinct + {val(x)} == a.distinct;
        }
      }
      m[key(x) := Acc(a.size + 1, a.distinct + {val(x)})]
  }

  /** Adding a record to the end of a group adds one to its size and its
      value to its distinct values. */
  lemma GroupSnoc<T, K, V>(xs: seq<T>, key: T -> K, val: T -> V, k: K)
    requires xs != []
    ensures var p, x := xs[..|xs| - 1], xs[|xs| - 1];
      && Group(xs, key, k) == Group(p, key, k) + (if key(x) == k then [x] else [])
      && (key(x) != k ==> Group(xs, key, k) == Group(p, key, k))
      && (key(x) == k ==> Distinct(Group(xs, key, k), val) == Distinct(Group(p, key, k), val) + {val(x)})
  {
    var p, x := xs[..|xs| - 1], xs[|xs| - 1];
    if key(x) != k {
      assert Group(p, key, k) + [] == Group(p, key, k);
    } else {
      var g := Group(xs, key, k);
      assert g[..|g| - 1] == Group(p, key, k);
    }
  }

  /** The accumulator of key `k` is the size and the distinct values of
      `k`'s group, and `k` has one exactly when its group is not empty. */
  lemma {:induction false} TallyAt<T, K, V>(xs: seq<T>, key: T -> K, val: T -> V, k: K)
    ensures k in Tally(xs, key, val) <==> |Group(xs, key, k)| > 0
    ensures k in Tally(xs, key, val) ==>
      Tally(xs, key, val)[k] == Acc(|Group(xs, key, k)|, Distinct(Group(xs, key, k), val))
    decreases |xs|
  {
    if xs != [] {
      var p, x := xs[..|xs| - 1], xs[|xs| - 1];
      TallyAt(p, key, val, k);
      GroupSnoc(xs, key, val, k);
      var m := Tally(p, key, val);
      if key(x) != k {
        assert Tally(xs, key, val) == m[key(x) := Tally(xs, key, val)[key(x)]];
      } else if k in m {
        assert Tally(xs, key, val)[k] == Acc(m[k].size + 1, m[k].distinct + {val(x)});
      } else {
        assert Group(p, key, k) == [];
        assert Group(xs, key, k) == [x];
        assert Distinct([x], val) == {val(x)} by {
          assert [x][..0] == [];
        }
        assert Tally(xs, key, val)[k] == Acc(1, {val(x)});
      }
    }
  }

  /** The keys with an accumulator are the keys that occur. */
  lemma {:induction false} TallyDomain<T, K, V>(xs: seq<T>, key: T -> K, val: T -> V)
    ensures forall k :: k in Tally(xs, key, val) <==> k in Keys(xs, key)
    ensures forall i :: 0 <= i < |Keys(xs, key)| ==> Keys(xs, key)[i] in Tally(xs, key, val)
    decreases |xs|
  {
    if xs != [] {
      TallyDomain(xs[..|xs| - 1], key, val);
    }
  }

  /** The distinct keys of `xs` in order of first appearance. */
  function Keys<T, K(==)>(xs: seq<T>, key: T -> K): (ks: seq<K>)
    ensures NoDuplicates(ks)
    ensures forall i :: 0 <= i < |xs| ==> key(xs[i]) in ks
    ensures forall k :: k in ks ==> exists i :: 0 <= i < |xs| && key(xs[i]) == k
    decreases |xs|
  {
    if xs == [] then []
    else
      var ks := Keys(xs[..|xs| - 1], key);
      assert forall i :: 0 <= i < |xs| - 1 ==> xs[..|xs| - 1][i] == xs[i];
      var k := key(xs[|xs| - 1]);
      if k in ks then ks else ks + [k]
  }

  /** `Keys` lists each key at its first appearance: a record with the
      `j`-th key is preceded by a record with every earlier key. */
  lemma {:induction false} KeysFirstAppearance<T, K>(xs: seq<T>, key: T -> K, i: nat, j: nat, q: nat)
    requires i < j < |Keys(xs, key)| && q < |xs| && key(xs[q]) == Keys(xs, key)[j]
    ensures exists p :: 0 <= p < q && key(xs[p]) == Keys(xs, key)[i]
    decreases |xs|
  {
    var ps, x := xs[..|xs| - 1], xs[|xs| - 1];
    var ks, kp := Keys(xs, key), Keys(ps, key);
    assert forall n :: 0 <= n < |ps| ==> ps[n] == xs[n];
    assert i < |kp| && ks[i] == kp[i];
    if q < |xs| - 1 {
      assert key(ps[q]) in kp;
      assert j < |kp| && ks[j] == kp[j];
      KeysFirstAppearance(ps, key, i, j, q);
    } else {
      assert kp[i] in kp;
    }
  }

  /** One output row: a key with its group's `size` and `nunique`. */
  datatype Stat<K> = Stat(key: K, size: nat, nunique: nat)

  /** `groupby(key)[val].agg(['size', 'nunique'])`, one row per key, read
      off the accumulators. */
  function SizeNUnique<T, K(==), V(==)>(xs: seq<T>, key: T -> K, val: T -> V): (rows: seq<Stat<K>>)
    ensures |rows| == |Keys(xs, key)|
    ensures forall i :: 0 <= i < |rows| ==> rows[i].key == Keys(xs, key)[i]
    ensures forall i :: 0 <= i < |rows| ==> 1 <= rows[i].nunique <= rows[i].size
  {
    var ks := Keys(xs, key);
    var m := Tally(xs, key, val);
    TallyDomain(xs, key, val);
    seq(|ks|, i requires 0 <= i < |ks| && ks[i] in m => Stat(ks[i], m[ks[i]].size, |m[ks[i]].distinct|))
  }

  /** The rows of a group-by: one per key present, in order of first
      appearance, and each row's size and distinct count are its group's;
      a group's distinct count is between 1 and its size. */
  lemma SizeNUniqueGroups<T, K, V>(xs: seq<T>, key: T -> K, val: T -> V)
    ensures var rows := SizeNUnique(xs, key, val);
      && |rows| == |Keys(xs, key)|
      && (forall i :: 0 <= i < |rows| ==> rows[i].key == Keys(xs, key)[i])
      && (forall i :: 0 <= i < |rows| ==>
            rows[i].size == |Group(xs, key, rows[i].key)|
            && rows[i].nunique == |Distinct(Group(xs, key, rows[i].key), val)|
            && 1 <= rows[i].nunique <= rows[i].size)
  {
    var rows := SizeNUnique(xs, key, val);
    TallyDomain(xs, key, val);
    forall i | 0 <= i < |rows|
      ensures rows[i].size == |Group(xs, key, rows[i].key)|
      ensures rows[i].nunique == |Distinct(Group(xs, key, rows[i].key), val)|
      ensures 1 <= rows[i].nunique <= rows[i].size
    {
      TallyAt(xs, key, val, rows[i].key);
      DistinctBounds(Group(xs, key, rows[i].key), val);
    }
  }

  function StatKey<K>(s: Stat<K>): K
  {
    s.key
  }

  /** The first record of `xs` with key `k`, if any. */
  function First<T, K(==)>(xs: seq<T>, key: T -> K, k: K): (r: Option<T>)
    ensures r.Some? <==> exists i :: 0 <= i < |xs| && key(xs[i]) == k
    ensures r.Some? ==> exists i :: 0 <= i < |xs| && xs[i] == r.value && key(r.value) == k
    decreases |xs|
  {
    if xs == [] then None
    else if key(xs[0]) == k then Some(xs[0])
    else
      assert forall i :: 1 <= i < |xs| ==> xs[1..][i - 1] == xs[i];
      First(xs[1..], key, k)
  }

  /** No two records of `xs` share a key. */
  predicate UniqueKeys<T, K(==)>(xs: seq<T>, key: T -> K)
  {
    forall i, j :: 0 <= i < j < |xs| ==> key(xs[i]) != key(xs[j])
  }

  /** When keys are unique, a group is the one record with that key, or
      nothing. */
  lemma {:induction false} GroupUnique<T, K>(xs: seq<T>, key: T -> K, k: K)
    requires UniqueKeys(xs, key)
    ensures Group(xs, key, k) == if First(xs, key, k).Some? then [First(xs, key, k).value] else []
    decreases |xs|
  {
    if xs != [] {
      var p, x := xs[..|xs| - 1], xs[|xs| - 1];
      assert UniqueKeys(p, key);
      GroupUnique(p, key, k);
      GroupSnoc(xs, key, key, k);
      if key(x) == k {
        assert First(p, key, k).None?;
        assert First(xs, key, k) == Some(x) by { FirstSnoc(xs, key, k); }
      } else {
        FirstSnoc(xs, key, k);
      }
    }
  }

  /** The first match of a longer sequence is the first match of its
      prefix, or else its last record. */
  lemma {:induction false} FirstSnoc<T, K>(xs: seq<T>, key: T -> K, k: K)
    requires xs != []
    ensures First(xs, key, k) ==
      if First(xs[..|xs| - 1], key, k).Some? then First(xs[..|xs| - 1], key, k)
      else if key(xs[|xs| - 1]) == k then Some(xs[|xs| - 1])
      else None
    decreases |xs|
  {
    if |xs| > 1 && key(xs[0]) != k {
      FirstSnoc(xs[1..], key, k);
      assert xs[1..][..|xs[1..]| - 1] == xs[..|xs| - 1][1..];
    }
  }

  /** Looking a key up in the rows of a group-by finds its group's
      statistics, and finds nothing for a key with no records. */
  lemma FindStatGroups<T, K, V>(xs: seq<T>, key: T -> K, val: T -> V, k: K)
    ensures var r := First(SizeNUnique(xs, key, val), StatKey, k);
      && (r.Some? <==> |Group(xs, key, k)| > 0)
      && (r.Some? ==> r.value == Stat(k, |Group(xs, key, k)|, |Distinct(Group(xs, key, k), val)|))
  {
    SizeNUniqueGroups(xs, key, val);
    TallyDomain(xs, key, val);
    TallyAt(xs, key, val, k);
    var rows := SizeNUnique(xs, key, val);
    var ks := Keys(xs, key);
    if |Group(xs, key, k)| > 0 {
      var j :| 0 <= j < |ks| && ks[j] == k;
      assert StatKey(rows[j]) == k;
    }
  }

  /** The rows of a group-by never repeat a key. */
  lemma SizeNUniqueUnique<T, K, V>(xs: seq<T>, key: T -> K, val: T -> V)
    ensures UniqueKeys(SizeNUnique(xs, key, val), StatKey)
  {
    SizeNUniqueGroups(xs, key, val);
  }

  /** With unique keys, the first record with a key is the only one. */
  lemma {:induction false} FirstUnique<T, K>(xs: seq<T>, key: T -> K, i: nat)
    requires UniqueKeys(xs, key) && i < |xs|
    ensures First(xs, key, key(xs[i])) == Some(xs[i])
    decreases i
  {
    if i > 0 {
      assert UniqueKeys(xs[1..], key);
      assert xs[1..][i - 1] == xs[i];
      FirstUnique(xs[1..], key, i - 1);
    }
  }

  function PairKey<K, V>(p: (K, V)): K
  {
    p.0
  }

  /** `groupby(key)[val].nunique()`: one (key, distinct count) row per key,
      in order of first appearance, no key twice. */
  function NUnique<T, K(==), V(==)>(xs: seq<T>, key: T -> K, val: T -> V): (rows: seq<(K, nat)>)
    ensures |rows| == |Keys(xs, key)|
    ensures forall i :: 0 <= i < |rows| ==> rows[i].0 == Keys(xs, key)[i] && rows[i].1 >= 1
    ensures UniqueKeys(rows, PairKey)
  {
    var stats := SizeNUnique(xs, key, val);
    var rows := seq(|stats|, i requires 0 <= i < |stats| => (stats[i].key, stats[i].nunique));
    assert forall i :: 0 <= i < |rows| ==> PairKey(rows[i]) == Keys(xs, key)[i];
    rows
  }

  /** The row of `k` among the distinct-count rows holds the number of
      distinct values in `k`'s group; a key with no records has no row. */
  lemma NUniqueGroups<T, K, V>(xs: seq<T>, key: T -> K, val: T -> V, k: K)
    ensures First(NUnique(xs, key, val), PairKey, k) ==
      if |Group(xs, key, k)| > 0 then Some((k, |Distinct(Group(xs, key, k), val)|)) else None
  {
    var rows, ks := NUnique(xs, key, val), Keys(xs, key);
    if |Group(xs, key, k)| > 0 {
      var j := KeyIndex(xs, key, k);
      NUniqueRow(xs, key, val, j);
      FirstUnique(rows, PairKey, j);
    } else {
      forall j | 0 <= j < |rows| ensures PairKey(rows[j]) != k {
        assert ks[j] in ks;
      }
    }
  }

  /** A key with records has a position among the keys. */
  lemma KeyIndex<T, K>(xs: seq<T>, key: T -> K, k: K) returns (j: nat)
    requires |Group(xs, key, k)| > 0
    ensures j < |Keys(xs, key)| && Keys(xs, key)[j] == k
  {
    var q :| 0 <= q < |xs| && key(xs[q]) == k;
    assert key(xs[q]) in Keys(xs, key);
    j :| 0 <= j < |Keys(xs, key)| && Keys(xs, key)[j] == k;
  }

  /** Row `j` of the distinct-count rows is the `j`-th key with its
      group's distinct count. */
  lemma NUniqueRow<T, K, V>(xs: seq<T>, key: T -> K, val: T -> V, j: nat)
    requires j < |Keys(xs, key)|
    ensures var k := Keys(xs, key)[j];
      NUnique(xs, key, val)[j] == (k, |Distinct(Group(xs, key, k), val)|)
  {
    SizeNUniqueGroups(xs, key, val);
  }

  /** The records of `xs` that satisfy `p`, in their order. */
  function Filter<T>(xs: seq<T>, p: T -> bool): (r: seq<T>)
    ensures |r| <= |xs|
    ensures forall i :: 0 <= i < |r| ==> p(r[i])
    decreases |xs|
  {
    if xs == [] then []
    else Filter(xs[..|xs| - 1], p) + (if p(xs[|xs| - 1]) then [xs[|xs| - 1]] else [])
  }

  /** Filtering then grouping is grouping then filtering. */
  lemma {:induction false} GroupFilter<T, K>(xs: seq<T>, p: T -> bool, key: T -> K, k: K)
    ensures Group(Filter(xs, p), key, k) == Filter(Group(xs, key, k), p)
    decreases |xs|
  {
    if xs != [] {
      var q, x := xs[..|xs| - 1], xs[|xs| - 1];
      GroupFilter(q, p, key, k);
      var fq := Filter(q, p);
      if p(x) {
        var f := Filter(xs, p);
        assert f == fq + [x];
        assert f[..|f| - 1] == fq;
        GroupSnoc(f, key, key, k);
      } else {
        assert Filter(xs, p) == fq + [] == fq;
      }
      GroupSnoc(xs, key, key, k);
      var g := Group(xs, key, k);
      if key(x) == k {
        assert g[..|g| - 1] == Group(q, key, k);
      } else {
        assert g == Group(q, key, k);
      }
    }
  }

  /** A filtered group has no more records and no more distinct values
      than the group. */
  lemma {:induction false} FilterBounds<T, V>(g: seq<T>, p: T -> bool, val: T -> V)
    ensures |Filter(g, p)| <= |g|
    ensures Distinct(Filter(g, p), val) <= Distinct(g, val)
    ensures |Distinct(Filter(g, p), val)| <= |Distinct(g, val)|
  {
    var a, b := Distinct(Filter(g, p), val), Distinct(g, val);
    var f := Filter(g, p);
    forall v | v in a ensures v in b {
      var i :| 0 <= i < |f| && val(f[i]) == v;
      FilterMember(g, p, i);
    }
    assert b == a + (b - a);
    assert a * (b - a) == {};
  }

  /** Every record of a filter comes from the filtered sequence. */
  lemma {:induction false} FilterMember<T>(xs: seq<T>, p: T -> bool, i: nat)
    requires i < |Filter(xs, p)|
    ensures exists j :: 0 <= j < |xs| && xs[j] == Filter(xs, p)[i]
    decreases |xs|
  {
    var q := xs[..|xs| - 1];
    var fq := Filter(q, p);
    if i < |fq| {
      FilterMember(q, p, i);
      var j :| 0 <= j < |q| && q[j] == fq[i];
      assert xs[j] == q[j];
    } else {
      assert Filter(xs, p)[i] == xs[|xs| - 1];
    }
  }

  /** Every record that satisfies the filter is kept. */
  lemma {:induction false} FilterKeeps<T>(xs: seq<T>, p: T -> bool, i: nat)
    requires i < |xs| && p(xs[i])
    ensures xs[i] in Filter(xs, p)
    decreases |xs|
  {
    var q := xs[..|xs| - 1];
    if i < |xs| - 1 {
      FilterKeeps(q, p, i);
      assert q[i] == xs[i];
    }
  }
}
