/** `pd.merge(left, right, on=key, how='left')`: every left row is kept, in
    order, once per matching right row, or once with no right part when
    nothing matches. */
module Join {
  import opened Cells
  import opened GroupBy

  /** The output rows of one left record. */
  function JoinRow<L, R>(l: L, matches: seq<R>): seq<(L, Option<R>)>
  {
    if matches == [] then [(l, None)]
    else seq(|matches|, j requires 0 <= j < |matches| => (l, Some(matches[j])))
  }

  /** The left join: the rows of each left record, left record by left
      record; a left record's matches are the right records with its key,
      in right order. */
  function LeftJoin<L, R, K(==)>(left: seq<L>, lkey: L -> K, right: seq<R>, rkey: R -> K): (rows: seq<(L, Option<R>)>)
    ensures |rows| >= |left|
    decreases |left|
  {
    if left == [] then []
    else
      var l := left[|left| - 1];
      LeftJoin(left[..|left| - 1], lkey, right, rkey) + JoinRow(l, Group(right, rkey, lkey(l)))
  }

  /** Every joined row pairs a left record with nothing or with a right
      record of the same key. */
  lemma {:induction false} LeftJoinOrigin<L, R, K>(left: seq<L>, lkey: L -> K, right: seq<R>, rkey: R -> K)
    ensures forall i :: 0 <= i < |LeftJoin(left, lkey, right, rkey)| ==> LeftJoin(left, lkey, right, rkey)[i].0 in left
    ensures forall i :: 0 <= i < |LeftJoin(left, lkey, right, rkey)| && LeftJoin(left, lkey, right, rkey)[i].1.Some? ==>
      var r := LeftJoin(left, lkey, right, rkey)[i]; r.1.value in right && rkey(r.1.value) == lkey(r.0)
    decreases |left|
  {
    if left != [] {
      var p, l := left[..|left| - 1], left[|left| - 1];
      LeftJoinOrigin(p, lkey, right, rkey);
      GroupMembers(right, rkey, lkey(l));
      var prev, g := LeftJoin(p, lkey, right, rkey), Group(right, rkey, lkey(l));
      var rows := LeftJoin(left, lkey, right, rkey);
      assert rows == prev + JoinRow(l, g);
      forall i | 0 <= i < |rows|
        ensures rows[i].0 in left
        ensures rows[i].1.Some? ==> rows[i].1.value in right && rkey(rows[i].1.value) == lkey(rows[i].0)
      {
        if i < |prev| {
          assert rows[i] == prev[i];
          assert prev[i].0 in p;
        } else {
          assert rows[i] == JoinRow(l, g)[i - |prev|];
          if rows[i].1.Some? {
            assert g != [] && rows[i].1.value == g[i - |prev|];
          }
        }
      }
    }
  }

  /** When the right side has unique keys the join neither drops nor
      duplicates a left row: row `i` is left record `i` with the right
      record of the same key, or with none. */
  lemma {:induction false} LeftJoinUnique<L, R, K>(left: seq<L>, lkey: L -> K, right: seq<R>, rkey: R -> K)
    requires UniqueKeys(right, rkey)
    ensures |LeftJoin(left, lkey, right, rkey)| == |left|
    ensures forall i :: 0 <= i < |left| ==>
      LeftJoin(left, lkey, right, rkey)[i] == (left[i], First(right, rkey, lkey(left[i])))
    decreases |left|
  {
    if left != [] {
      var p, l := left[..|left| - 1], left[|left| - 1];
      LeftJoinUnique(p, lkey, right, rkey);
      GroupUnique(right, rkey, lkey(l));
      assert JoinRow(l, Group(right, rkey, lkey(l))) == [(l, First(right, rkey, lkey(l)))];
      var rows, prev := LeftJoin(left, lkey, right, rkey), LeftJoin(p, lkey, right, rkey);
      assert rows == prev + [(l, First(right, rkey, lkey(l)))];
      forall i | 0 <= i < |left| ensures rows[i] == (left[i], First(right, rkey, lkey(left[i]))) {
        if i < |p| {
          assert left[i] == p[i] && rows[i] == prev[i];
        }
      }
    }
  }

  /** A left record whose key has several right matches is repeated, once
      per match. */
  lemma LeftJoinDuplicates<L, R, K>(l: L, lkey: L -> K, right: seq<R>, rkey: R -> K)
    requires |Group(right, rkey, lkey(l))| >= 2
    ensures |LeftJoin([l], lkey, right, rkey)| == |Group(right, rkey, lkey(l))|
    ensures LeftJoin([l], lkey, right, rkey)[0].0 == LeftJoin([l], lkey, right, rkey)[1].0 == l
  {
    assert [l][..0] == [];
    assert LeftJoin([l], lkey, right, rkey) == JoinRow(l, Group(right, rkey, lkey(l)));
  }
}
