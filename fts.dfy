/**
 * The full-text shadow tables (`podcasts_fts`, `episodes_fts`) as maps from rowid to the
 * indexed (title, description) pair, and the three triggers that keep a shadow equal to
 * the projection of its base table.
 */
module Fts {

  datatype FtsEntry = FtsEntry(title: string, description: string)

  /** One base-table row as its shadow sees it: its rowid and its indexed text. */
  datatype Indexed = Indexed(rowid: nat, entry: FtsEntry)

  ghost predicate UniqueRowids(xs: seq<Indexed>)
  {
    forall i, j | 0 <= i < j < |xs| :: xs[i].rowid != xs[j].rowid
  }

  /** The shadow a base table should have: one entry per row, keyed by rowid. */
  function Mirror(xs: seq<Indexed>): map<nat, FtsEntry>
  {
    if xs == [] then map[] else Mirror(xs[..|xs| - 1])[xs[|xs| - 1].rowid := xs[|xs| - 1].entry]
  }

  /** `INSERT INTO x_fts (rowid, title, description) VALUES (...)`. */
  function FtsInsert(index: map<nat, FtsEntry>, rowid: nat, entry: FtsEntry): (r: map<nat, FtsEntry>)
    ensures r.Keys == index.Keys + {rowid} && r[rowid] == entry
    ensures forall k | k in index && k != rowid :: r[k] == index[k]
  {
    index[rowid := entry]
  }

  /** The FTS5 'delete' command: it retracts the entry stored under `rowid`, which must be
      given with the text that was indexed. FTS5 promises nothing when other text is given
      (the index may be corrupted); that case is not modelled, and the index is left as is. */
  function FtsDelete(index: map<nat, FtsEntry>, rowid: nat, entry: FtsEntry): (r: map<nat, FtsEntry>)
    ensures rowid in index && index[rowid] == entry ==> r.Keys == index.Keys - {rowid}
    ensures forall k | k in r :: k in index && r[k] == index[k]
    ensures forall k | k in index && k != rowid :: k in r
  {
    if rowid in index && index[rowid] == entry then index - {rowid} else index
  }

  ghost predicate HasRowid(xs: seq<Indexed>, k: nat)
  {
    exists i :: 0 <= i < |xs| && xs[i].rowid == k
  }

  /** With distinct rowids, the mirror holds exactly the rows' rowids, each with its row's text. */
  lemma {:induction false} MirrorContents(xs: seq<Indexed>)
    requires UniqueRowids(xs)
    ensures forall k | k in Mirror(xs) :: HasRowid(xs, k)
    ensures forall i | 0 <= i < |xs| :: xs[i].rowid in Mirror(xs) && Mirror(xs)[xs[i].rowid] == xs[i].entry
  {
    if xs != [] {
      var init := xs[..|xs| - 1];
      assert UniqueRowids(init) by {
        forall i, j | 0 <= i < j < |init| ensures init[i].rowid != init[j].rowid {
          assert init[i] == xs[i] && init[j] == xs[j];
        }
      }
      MirrorContents(init);
      forall k | k in Mirror(xs) ensures HasRowid(xs, k) {
        if k in Mirror(init) {
          var i :| 0 <= i < |init| && init[i].rowid == k;
          assert xs[i].rowid == k;
        } else {
          assert xs[|xs| - 1].rowid == k;
        }
      }
      forall i | 0 <= i < |xs| ensures Mirror(xs)[xs[i].rowid] == xs[i].entry {
        if i < |init| {
          assert init[i] == xs[i];
        }
      }
    }
  }

  /** The insert trigger keeps the shadow equal to the mirror of the grown table. */
  lemma InsertTriggerMirrors(xs: seq<Indexed>, x: Indexed)
    ensures Mirror(xs + [x]) == FtsInsert(Mirror(xs), x.rowid, x.entry)
  {
    assert (xs + [x])[..|xs|] == xs;
  }

  /** The table without row i. */
  function RemoveAt(xs: seq<Indexed>, i: nat): (ys: seq<Indexed>)
    requires i < |xs|
    ensures |ys| == |xs| - 1
    ensures forall j | 0 <= j < i :: ys[j] == xs[j]
    ensures forall j | i < j < |xs| :: ys[j - 1] == xs[j]
  {
    xs[..i] + xs[i + 1..]
  }

  lemma RemoveAtKeepsUnique(xs: seq<Indexed>, i: nat)
    requires UniqueRowids(xs) && i < |xs|
    ensures UniqueRowids(RemoveAt(xs, i))
  {
    var ys := RemoveAt(xs, i);
    forall a, b | 0 <= a < b < |ys| ensures ys[a].rowid != ys[b].rowid {
      var a' := if a < i then a else a + 1;
      var b' := if b < i then b else b + 1;
      assert ys[a] == xs[a'] && ys[b] == xs[b'];
    }
  }

  lemma SameMap(a: map<nat, FtsEntry>, b: map<nat, FtsEntry>)
    requires forall k | k in a :: k in b && a[k] == b[k]
    requires forall k | k in b :: k in a
    ensures a == b
  {
  }

  /** With distinct rowids, a map holding exactly the rows' rowids, each with its row's text,
      is the mirror. */
  lemma MirrorCharacterized(xs: seq<Indexed>, m: map<nat, FtsEntry>)
    requires UniqueRowids(xs)
    requires forall k | k in m :: HasRowid(xs, k)
    requires forall i | 0 <= i < |xs| :: xs[i].rowid in m && m[xs[i].rowid] == xs[i].entry
    ensures Mirror(xs) == m
  {
    var mx := Mirror(xs);
    MirrorContents(xs);
    forall k | k in mx ensures k in m && mx[k] == m[k] {
      var i :| 0 <= i < |xs| && xs[i].rowid == k;
    }
    forall k | k in m ensures k in mx {
      var i :| 0 <= i < |xs| && xs[i].rowid == k;
    }
    SameMap(mx, m);
  }

  /** Every key left after retracting row i's rowid belongs to a row of the shortened table. */
  lemma DeleteLeavesOwnedKeys(xs: seq<Indexed>, i: nat, mx: map<nat, FtsEntry>)
    requires i < |xs|
    requires forall k | k in mx :: HasRowid(xs, k)
    ensures forall k | k in mx - {xs[i].rowid} :: HasRowid(RemoveAt(xs, i), k)
  {
    var ys := RemoveAt(xs, i);
    forall k | k in mx - {xs[i].rowid} ensures HasRowid(ys, k) {
      var j :| 0 <= j < |xs| && xs[j].rowid == k;
      var j' := if j < i then j else j - 1;
      assert ys[j'] == xs[j];
    }
  }

  /** Every row of the shortened table keeps its entry once row i's rowid is retracted. */
  lemma DeleteKeepsOtherEntries(xs: seq<Indexed>, i: nat, mx: map<nat, FtsEntry>)
    requires UniqueRowids(xs) && i < |xs|
    requires forall j | 0 <= j < |xs| :: xs[j].rowid in mx && mx[xs[j].rowid] == xs[j].entry
    ensures forall j | 0 <= j < |RemoveAt(xs, i)| ::
      RemoveAt(xs, i)[j].rowid in mx - {xs[i].rowid} && (mx - {xs[i].rowid})[RemoveAt(xs, i)[j].rowid] == RemoveAt(xs, i)[j].entry
  {
    var ys := RemoveAt(xs, i);
    var m := mx - {xs[i].rowid};
    forall j | 0 <= j < |ys| ensures ys[j].rowid in m && m[ys[j].rowid] == ys[j].entry {
      var j' := if j < i then j else j + 1;
      assert ys[j] == xs[j'] && j' != i;
      assert xs[j'].rowid != xs[i].rowid;
    }
  }

  /** The delete trigger keeps the shadow equal to the mirror of the table without row i. */
  lemma DeleteTriggerMirrors(xs: seq<Indexed>, i: nat)
    requires UniqueRowids(xs) && i < |xs|
    ensures Mirror(RemoveAt(xs, i)) == FtsDelete(Mirror(xs), xs[i].rowid, xs[i].entry)
  {
    var mx := Mirror(xs);
    MirrorContents(xs);
    DeleteLeavesOwnedKeys(xs, i, mx);
    DeleteKeepsOtherEntries(xs, i, mx);
    RemoveAtKeepsUnique(xs, i);
    MirrorCharacterized(RemoveAt(xs, i), mx - {xs[i].rowid});
  }

  /** The update trigger (retract the old entry, insert the new one) keeps the shadow equal to
      the mirror of the table whose row i was replaced, even when the rowid changes. */
  lemma UpdateTriggerMirrors(xs: seq<Indexed>, i: nat, y: Indexed)
    requires UniqueRowids(xs) && i < |xs|
    requires forall j | 0 <= j < |xs| && j != i :: xs[j].rowid != y.rowid
    ensures Mirror(xs[i := y]) == FtsInsert(FtsDelete(Mirror(xs), xs[i].rowid, xs[i].entry), y.rowid, y.entry)
  {
    var ys := xs[i := y];
    var mx := Mirror(xs);
    assert UniqueRowids(ys);
    MirrorContents(xs);
    var m := (mx - {xs[i].rowid})[y.rowid := y.entry];
    assert FtsInsert(FtsDelete(mx, xs[i].rowid, xs[i].entry), y.rowid, y.entry) == m;
    forall k | k in m ensures HasRowid(ys, k) {
      if k != y.rowid {
        var j :| 0 <= j < |xs| && xs[j].rowid == k;
        assert ys[j] == xs[j];
      } else {
        assert ys[i].rowid == k;
      }
    }
    forall j | 0 <= j < |ys| ensures ys[j].rowid in m && m[ys[j].rowid] == ys[j].entry {
      if j != i {
        assert ys[j] == xs[j];
      }
    }
    MirrorCharacterized(ys, m);
  }
}
