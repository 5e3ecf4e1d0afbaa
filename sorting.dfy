/** Python's ordering of strings and the sort the pipeline relies on: the
    partition files are visited in `sorted(...)` order, and a pandas
    group-by with the default `sort=True` emits its groups by ascending
    key. */
module Sorting {
  import opened GroupBy

  /** `a <= b` on Python strings: code point by code point, and a proper
      prefix before the longer string. */
  predicate StrLe(a: string, b: string)
    decreases |a|
  {
    a == [] || (b != [] && (a[0] < b[0] || (a[0] == b[0] && StrLe(a[1..], b[1..]))))
  }

  lemma {:induction false} StrLeTotal(a: string, b: string)
    ensures StrLe(a, b) || StrLe(b, a)
    decreases |a|
  {
    if a != [] && b != [] && a[0] == b[0] {
      StrLeTotal(a[1..], b[1..]);
    }
  }

  lemma {:induction false} StrLeTrans(a: string, b: string, c: string)
    requires StrLe(a, b) && StrLe(b, c)
    ensures StrLe(a, c)
    decreases |a|
  {
    if a != [] && a[0] == b[0] && b[0] == c[0] {
      StrLeTrans(a[1..], b[1..], c[1..]);
    }
  }

  lemma {:induction false} StrLeAntisym(a: string, b: string)
    requires StrLe(a, b) && StrLe(b, a)
    ensures a == b
    decreases |a|
  {
    if a != [] {
      StrLeAntisym(a[1..], b[1..]);
      assert a == [a[0]] + a[1..] && b == [b[0]] + b[1..];
    }
  }

  /** A common directory prefix does not change the order of two paths,
      so sorting full paths sorts their base names. */
  lemma {:induction false} StrLeCommonPrefix(d: string, a: string, b: string)
    ensures StrLe(d + a, d + b) <==> StrLe(a, b)
    decreases |d|
  {
    if d != [] {
      assert (d + a)[0] == (d + b)[0] == d[0];
      assert (d + a)[1..] == d[1..] + a && (d + b)[1..] == d[1..] + b;
      StrLeCommonPrefix(d[1..], a, b);
    } else {
      assert d + a == a && d + b == b;
    }
  }

  /** Every element's key is at most every later element's key. */
  predicate SortedBy<T>(xs: seq<T>, key: T -> string)
  {
    forall i, j :: 0 <= i < j < |xs| ==> StrLe(key(xs[i]), key(xs[j]))
  }

  /** Insertion of `x` before the first element whose key is at least its own. */
  function Insert<T>(x: T, s: seq<T>, key: T -> string): (r: seq<T>)
    ensures multiset(r) == multiset(s) + multiset{x}
    decreases |s|
  {
    if s == [] then [x]
    else if StrLe(key(x), key(s[0])) then [x] + s
    else
      assert s == [s[0]] + s[1..];
      [s[0]] + Insert(x, s[1..], key)
  }

  lemma {:induction false} InsertSorted<T>(x: T, s: seq<T>, key: T -> string)
    requires SortedBy(s, key)
    ensures SortedBy(Insert(x, s, key), key)
    decreases |s|
  {
    if s != [] {
      if StrLe(key(x), key(s[0])) {
        forall j | 1 <= j < |s| ensures StrLe(key(x), key(s[j])) {
          StrLeTrans(key(x), key(s[0]), key(s[j]));
        }
      } else {
        StrLeTotal(key(x), key(s[0]));
        var rest := Insert(x, s[1..], key);
        InsertSorted(x, s[1..], key);
        forall j | 0 <= j < |rest| ensures StrLe(key(s[0]), key(rest[j])) {
          assert rest[j] in multiset(rest);
          if rest[j] != x {
            assert rest[j] in multiset(s[1..]);
            var k :| 0 <= k < |s[1..]| && s[1..][k] == rest[j];
            assert s[k + 1] == rest[j];
          }
        }
      }
    }
  }

  /** Inserting a record whose key no record has keeps the keys unique. */
  lemma {:induction false} InsertUnique<T>(x: T, s: seq<T>, key: T -> string)
    requires UniqueKeys(s, key)
    requires forall j :: 0 <= j < |s| ==> key(s[j]) != key(x)
    ensures UniqueKeys(Insert(x, s, key), key)
    decreases |s|
  {
    if s != [] && !StrLe(key(x), key(s[0])) {
      var rest := Insert(x, s[1..], key);
      InsertUnique(x, s[1..], key);
      forall j | 0 <= j < |rest| ensures key(s[0]) != key(rest[j]) {
        assert rest[j] in multiset(rest);
        if rest[j] != x {
          assert rest[j] in multiset(s[1..]);
          var k :| 0 <= k < |s[1..]| && s[1..][k] == rest[j];
          assert s[k + 1] == rest[j];
        }
      }
    }
  }

  /** `sorted(xs, key=key)`: the records of `xs` ordered by key. */
  function SortBy<T>(xs: seq<T>, key: T -> string): (r: seq<T>)
    ensures multiset(r) == multiset(xs)
    ensures SortedBy(r, key)
    decreases |xs|
  {
    if xs == [] then []
    else
      assert xs == [xs[0]] + xs[1..];
      InsertSorted(xs[0], SortBy(xs[1..], key), key);
      Insert(xs[0], SortBy(xs[1..], key), key)
  }

  /** Sorting keeps unique keys unique. */
  lemma {:induction false} SortUnique<T>(xs: seq<T>, key: T -> string)
    requires UniqueKeys(xs, key)
    ensures UniqueKeys(SortBy(xs, key), key)
    decreases |xs|
  {
    if xs != [] {
      var rest := SortBy(xs[1..], key);
      assert UniqueKeys(xs[1..], key);
      SortUnique(xs[1..], key);
      forall j | 0 <= j < |rest| ensures key(rest[j]) != key(xs[0]) {
        assert rest[j] in multiset(xs[1..]);
        var k :| 0 <= k < |xs[1..]| && xs[1..][k] == rest[j];
        assert xs[k + 1] == rest[j];
      }
      InsertUnique(xs[0], rest, key);
    }
  }

  /** A sorted sequence holds exactly the elements of the original. */
  lemma SortMembers<T>(xs: seq<T>, key: T -> string)
    ensures forall e :: e in SortBy(xs, key) <==> e in xs
  {
    var r := SortBy(xs, key);
    forall e ensures e in r <==> e in xs {
      assert e in r <==> e in multiset(r);
      assert e in xs <==> e in multiset(xs);
    }
  }

  /** A group-by with `sort=True`: one row per key, no key twice, in
      ascending key order. */
  function SortedSizeNUnique<T, V(==)>(xs: seq<T>, key: T -> string, val: T -> V): (rows: seq<Stat<string>>)
    ensures |rows| == |Keys(xs, key)|
    ensures UniqueKeys(rows, StatKey)
    ensures SortedBy(rows, StatKey)
  {
    var stats := SizeNUnique(xs, key, val);
    SizeNUniqueUnique(xs, key, val);
    SortUnique(stats, StatKey);
    var all := SortBy(stats, StatKey);
    assert |all| == |multiset(all)| == |multiset(stats)| == |stats|;
    all
  }

  /** Every row of the sorted group-by is a key that occurs, with its
      group's size and distinct count. */
  lemma SortedSizeNUniqueRow<T, V>(xs: seq<T>, key: T -> string, val: T -> V, i: nat)
    requires i < |SortedSizeNUnique(xs, key, val)|
    ensures var r := SortedSizeNUnique(xs, key, val)[i];
      && |Group(xs, key, r.key)| > 0
      && r == Stat(r.key, |Group(xs, key, r.key)|, |Distinct(Group(xs, key, r.key), val)|)
  {
    var stats := SizeNUnique(xs, key, val);
    var all := SortBy(stats, StatKey);
    SizeNUniqueGroups(xs, key, val);
    DistinctBounds(Group(xs, key, all[i].key), val);
    assert all[i] in multiset(stats);
  }

  /** Every key that occurs has a row in the sorted group-by. */
  lemma SortedSizeNUniqueCovers<T, V>(xs: seq<T>, key: T -> string, val: T -> V, k: string)
    requires k in Keys(xs, key)
    ensures exists i :: 0 <= i < |SortedSizeNUnique(xs, key, val)| && SortedSizeNUnique(xs, key, val)[i].key == k
  {
    var stats := SizeNUnique(xs, key, val);
    var all := SortedSizeNUnique(xs, key, val);
    assert multiset(all) == multiset(stats);
    var j :| 0 <= j < |Keys(xs, key)| && Keys(xs, key)[j] == k;
    assert stats[j].key == k;
    assert stats[j] in multiset(all);
    var i :| 0 <= i < |all| && all[i] == stats[j];
    assert all[i].key == k;
  }
}
