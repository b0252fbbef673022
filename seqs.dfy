/** Sequence helpers used to model SQL `where` clauses over a table scanned in rowid order. */
module Seqs {

  /** The rows of `xs` that satisfy `keep`, in their original order. */
  function Filter<T(!new)>(xs: seq<T>, keep: T -> bool): (r: seq<T>)
    ensures |r| <= |xs|
    ensures forall x :: x in r <==> x in xs && keep(x)
  {
    if xs == [] then []
    else (if keep(xs[0]) then [xs[0]] else []) + Filter(xs[1..], keep)
  }

  /** No two elements of `xs` share a key. */
  ghost predicate UniqueBy<T>(xs: seq<T>, key: T -> string)
  {
    forall i, j | 0 <= i < j < |xs| :: key(xs[i]) != key(xs[j])
  }

  /** Filtering a table whose keys are unique keeps them unique. */
  lemma {:induction false} FilterKeepsUnique<T(!new)>(xs: seq<T>, keep: T -> bool, key: T -> string)
    requires UniqueBy(xs, key)
    ensures UniqueBy(Filter(xs, keep), key)
  {
    if xs != [] {
      var rest := Filter(xs[1..], keep);
      FilterKeepsUnique(xs[1..], keep, key);
      forall y | y in rest ensures key(y) != key(xs[0]) {
        var j :| 0 <= j < |xs[1..]| && xs[1..][j] == y;
        assert xs[j + 1] == y;
      }
      var r := (if keep(xs[0]) then [xs[0]] else []) + rest;
      assert r == Filter(xs, keep);
      forall i, j | 0 <= i < j < |r| ensures key(r[i]) != key(r[j]) {
        if keep(xs[0]) && i == 0 {
          assert r[j] == rest[j - 1];
          assert r[j] in rest;
        }
      }
    }
  }
}
