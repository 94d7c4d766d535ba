/** The two pandas operations the pipeline is built from when tables are
    sequences of records keyed by an integer id: looking up the rows of a key,
    and `DataFrame.merge(..., how='left')`. */
module Join {
  import opened Tables

  /** The rows of `right` whose key is `k`, in table order. */
  function Matches<R>(right: seq<R>, rkey: R -> int, k: int): (m: seq<R>)
    ensures |m| <= |right|
    ensures forall x :: x in m ==> x in right && rkey(x) == k
  {
    if right == [] then []
    else (if rkey(right[0]) == k then [right[0]] else []) + Matches(right[1..], rkey, k)
  }

  /** The first row of `right` whose key is `k`, if any. */
  function Lookup<R>(right: seq<R>, rkey: R -> int, k: int): (m: Option<R>)
    ensures m.Some? ==> m.value in right && rkey(m.value) == k
    ensures m.None? ==> forall i :: 0 <= i < |right| ==> rkey(right[i]) != k
  {
    if right == [] then None
    else if rkey(right[0]) == k then Some(right[0])
    else Lookup(right[1..], rkey, k)
  }

  /** No key occurs twice in the table. */
  predicate UniqueKeys<R>(right: seq<R>, rkey: R -> int)
  {
    forall i, j :: 0 <= i < j < |right| ==> rkey(right[i]) != rkey(right[j])
  }

  /** `left.merge(right, left_on=lkey, right_on=rkey, how='left')`: each left
      row, in order, paired with each of its matches in `right` in order, or
      once with nothing when it has no match. `combine` builds the output row;
      it receives `None` where pandas fills the right-hand columns with nulls. */
  function LeftJoin<L, R, O>(left: seq<L>, right: seq<R>, lkey: L -> int, rkey: R -> int,
                             combine: (L, Option<R>) -> O): (r: seq<O>)
    ensures |r| >= |left|
  {
    if left == [] then []
    else
      var m := Matches(right, rkey, lkey(left[0]));
      (if m == [] then [combine(left[0], None)]
       else seq(|m|, i requires 0 <= i < |m| => combine(left[0], Some(m[i]))))
      + LeftJoin(left[1..], right, lkey, rkey, combine)
  }

  /** With unique keys a key matches at most one row: the one `Lookup` finds. */
  lemma {:induction false} MatchesUnique<R>(right: seq<R>, rkey: R -> int, k: int)
    requires UniqueKeys(right, rkey)
    ensures Matches(right, rkey, k) ==
            (match Lookup(right, rkey, k) case None => [] case Some(x) => [x])
  {
    if right != [] {
      var tail := right[1..];
      assert UniqueKeys(tail, rkey);
      MatchesUnique(tail, rkey, k);
      if rkey(right[0]) == k {
        assert forall i :: 0 <= i < |tail| ==> rkey(tail[i]) != k by {
          forall i | 0 <= i < |tail| ensures rkey(tail[i]) != k {
            assert tail[i] == right[i + 1];
          }
        }
      }
    }
  }

  /** Against a table with unique keys, the first left row yields exactly one
      output row. */
  lemma JoinHead<L, R, O>(left: seq<L>, right: seq<R>, lkey: L -> int,
                          rkey: R -> int, combine: (L, Option<R>) -> O)
    requires UniqueKeys(right, rkey) && left != []
    ensures LeftJoin(left, right, lkey, rkey, combine) ==
      [combine(left[0], Lookup(right, rkey, lkey(left[0])))] + LeftJoin(left[1..], right, lkey, rkey, combine)
  {
    var m := Matches(right, rkey, lkey(left[0]));
    MatchesUnique(right, rkey, lkey(left[0]));
    var rest := LeftJoin(left[1..], right, lkey, rkey, combine);
    match Lookup(right, rkey, lkey(left[0]))
    case None =>
      assert LeftJoin(left, right, lkey, rkey, combine) == [combine(left[0], None)] + rest;
    case Some(x) =>
      assert m == [x];
      var expanded := seq(|m|, i requires 0 <= i < |m| => combine(left[0], Some(m[i])));
      assert expanded == [combine(left[0], Some(x))];
      assert LeftJoin(left, right, lkey, rkey, combine) == expanded + rest;
  }

  /** A left join against a table with unique keys keeps every left row exactly
      once, in order, each combined with the row its key finds. */
  lemma {:induction false} LeftJoinUnique<L, R, O>(left: seq<L>, right: seq<R>, lkey: L -> int,
                                                   rkey: R -> int, combine: (L, Option<R>) -> O)
    requires UniqueKeys(right, rkey)
    ensures |LeftJoin(left, right, lkey, rkey, combine)| == |left|
    ensures forall i :: 0 <= i < |left| ==>
      LeftJoin(left, right, lkey, rkey, combine)[i] == combine(left[i], Lookup(right, rkey, lkey(left[i])))
  {
    if left != [] {
      LeftJoinUnique(left[1..], right, lkey, rkey, combine);
      JoinHead(left, right, lkey, rkey, combine);
    }
  }

  /** With unique keys, a row's key finds that very row. */
  lemma {:induction false} LookupAt<R>(right: seq<R>, rkey: R -> int, i: nat)
    requires UniqueKeys(right, rkey) && i < |right|
    ensures Lookup(right, rkey, rkey(right[i])) == Some(right[i])
  {
    if i > 0 {
      assert UniqueKeys(right[1..], rkey);
      LookupAt(right[1..], rkey, i - 1);
    }
  }
}
