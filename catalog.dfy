/**
 * The catalog store: the `podcasts` and `episodes` tables keyed by a text primary key,
 * their full-text shadows kept in sync by triggers, and the reads the web layer and the
 * ingestion step use. Rows are kept in rowid order, which is also the order a table scan
 * without `order by` visits them here.
 */
module Catalog {
  import opened Wrappers
  import opened Seqs
  import opened GoStrings
  import opened Times
  import opened Podcasts
  import opened Fts

  /** A row of `podcasts`: the categories column holds the list joined with commas. */
  datatype PodRow = PodRow(
    rowid: nat, id: string, title: string, description: string, albumArt: string,
    creator: string, categories: string, rss: string, added: DateTime, link: string)

  /** A row of `episodes`. */
  datatype EpisodeRow = EpisodeRow(
    rowid: nat, id: string, podId: string, title: string, description: string,
    thumbnail: string, media: string, mediaType: string, published: DateTime)

  /** The one error the inserts can raise here: a primary key that is already taken. */
  datatype DbError = UniqueConstraintFailed(column: string)

  function PodRowId(row: PodRow): string { row.id }

  function EpisodeRowId(row: EpisodeRow): string { row.id }

  /** The row `AddPod` writes: categories are stored as `strings.Join(categories, ",")`. */
  function PodToRow(pod: Pod, rowid: nat): (row: PodRow)
    ensures row.rowid == rowid && row.id == pod.id && row.categories == Join(pod.categories, ',')
    ensures row.title == pod.title && row.description == pod.description && row.albumArt == pod.albumArt
    ensures row.creator == pod.creator && row.rss == pod.rss && row.added == pod.added && row.link == pod.link
  {
    PodRow(rowid, pod.id, pod.title, pod.description, pod.albumArt, pod.creator,
           Join(pod.categories, ','), pod.rss, pod.added, pod.link)
  }

  /** The record `GetPods` builds from a row: categories come back from `strings.Split(cats, ",")`. */
  function RowToPod(row: PodRow): (pod: Pod)
    ensures pod.id == row.id && pod.categories == Split(row.categories, ',') && pod.episodes == []
    ensures pod.title == row.title && pod.description == row.description && pod.albumArt == row.albumArt
    ensures pod.creator == row.creator && pod.rss == row.rss && pod.added == row.added && pod.link == row.link
  {
    Pod(row.title, row.description, row.albumArt, row.creator, Split(row.categories, ','),
        row.rss, row.id, row.added, row.link, [])
  }

  /** The row `AddEpisode` writes: every field in its own column. */
  function EpisodeToRow(episode: Episode, rowid: nat): (row: EpisodeRow)
    ensures row.rowid == rowid && row.id == episode.id && row.podId == episode.podId
    ensures row.title == episode.title && row.description == episode.description
    ensures row.thumbnail == episode.thumbnail && row.media == episode.media
    ensures row.mediaType == episode.mediaType && row.published == episode.published
  {
    EpisodeRow(rowid, episode.id, episode.podId, episode.title, episode.description,
               episode.thumbnail, episode.media, episode.mediaType, episode.published)
  }

  /** The record `GetEpisodes` builds from a row. */
  function RowToEpisode(row: EpisodeRow): (episode: Episode)
    ensures episode.id == row.id && episode.podId == row.podId
    ensures episode.title == row.title && episode.description == row.description
    ensures episode.thumbnail == row.thumbnail && episode.media == row.media
    ensures episode.mediaType == row.mediaType && episode.published == row.published
  {
    Episode(row.title, row.description, row.media, row.mediaType, row.thumbnail, row.id,
            row.published, row.podId)
  }

  /** An episode reads back exactly as it was written, under any rowid. */
  lemma EpisodeRowRoundTrip(episode: Episode, rowid: nat)
    ensures RowToEpisode(EpisodeToRow(episode, rowid)) == episode
  {
  }

  /** A show reads back as it was written when its category list is non-empty and no
      category contains a comma (the stored record never carries episodes). */
  lemma PodRowRoundTrip(pod: Pod, rowid: nat)
    requires |pod.categories| >= 1
    requires forall i | 0 <= i < |pod.categories| :: ',' !in pod.categories[i]
    requires pod.episodes == []
    ensures RowToPod(PodToRow(pod, rowid)) == pod
  {
    SplitJoin(pod.categories, ',');
  }

  /** An empty category list reads back as a list holding one empty category. */
  lemma EmptyCategoriesReadBack(pod: Pod, rowid: nat)
    requires pod.categories == []
    ensures RowToPod(PodToRow(pod, rowid)).categories == [""]
  {
  }

  /** A category holding a comma reads back as two categories. */
  lemma CommaSplitsCategory(pod: Pod, rowid: nat, a: string, b: string)
    requires ',' !in a && ',' !in b
    requires pod.categories == [a + "," + b]
    ensures RowToPod(PodToRow(pod, rowid)).categories == [a, b]
  {
    SplitJoin([a, b], ',');
    assert Join([a, b], ',') == a + "," + b;
  }

  /** A row of `podcasts` as its shadow sees it: its rowid with its title and description. */
  function PodText(row: PodRow): Indexed
  {
    Indexed(row.rowid, FtsEntry(row.title, row.description))
  }

  /** A row of `episodes` as its shadow sees it. */
  function EpisodeText(row: EpisodeRow): Indexed
  {
    Indexed(row.rowid, FtsEntry(row.title, row.description))
  }

  /** The indexed text of a table, row by row. */
  function Texts<R>(rows: seq<R>, text: R -> Indexed): (xs: seq<Indexed>)
    ensures |xs| == |rows|
    ensures forall i | 0 <= i < |rows| :: xs[i] == text(rows[i])
  {
    seq(|rows|, i requires 0 <= i < |rows| => text(rows[i]))
  }

  lemma TextsAppend<R>(rows: seq<R>, row: R, text: R -> Indexed)
    ensures Texts(rows + [row], text) == Texts(rows, text) + [text(row)]
  {
    assert (rows + [row])[|rows|] == row;
    assert forall i | 0 <= i < |rows| :: (rows + [row])[i] == rows[i];
  }

  /** The two base tables and the next rowid of each. */
  datatype Tables = Tables(pods: seq<PodRow>, episodes: seq<EpisodeRow>, nextPodRowid: nat, nextEpisodeRowid: nat)

  /** Primary keys are unique; rowids increase along each table and stay below its counter. */
  ghost predicate TablesValid(t: Tables)
  {
    && UniqueBy(t.pods, PodRowId)
    && UniqueBy(t.episodes, EpisodeRowId)
    && (forall i, j | 0 <= i < j < |t.pods| :: t.pods[i].rowid < t.pods[j].rowid)
    && (forall i, j | 0 <= i < j < |t.episodes| :: t.episodes[i].rowid < t.episodes[j].rowid)
    && 1 <= t.nextPodRowid && 1 <= t.nextEpisodeRowid
    && (forall i | 0 <= i < |t.pods| :: 1 <= t.pods[i].rowid < t.nextPodRowid)
    && (forall i | 0 <= i < |t.episodes| :: 1 <= t.episodes[i].rowid < t.nextEpisodeRowid)
  }

  predicate HasPodId(pods: seq<PodRow>, id: string)
  {
    exists i | 0 <= i < |pods| :: pods[i].id == id
  }

  predicate HasEpisodeId(episodes: seq<EpisodeRow>, id: string)
  {
    exists i | 0 <= i < |episodes| :: episodes[i].id == id
  }

  /** Rowids that increase along a table are distinct, as the shadow's keys must be. */
  lemma IncreasingRowidsAreUnique(xs: seq<Indexed>)
    requires forall i, j | 0 <= i < j < |xs| :: xs[i].rowid < xs[j].rowid
    ensures UniqueRowids(xs)
  {
  }

  /** `insert into podcasts`: the row is appended under the next rowid unless its id is
      already taken, in which case the table is unchanged. */
  function InsertPod(t: Tables, pod: Pod): (r: Tables)
    ensures HasPodId(r.pods, pod.id)
    ensures HasPodId(t.pods, pod.id) ==> r == t
    ensures r.episodes == t.episodes && r.nextEpisodeRowid == t.nextEpisodeRowid
    ensures t.pods <= r.pods && |r.pods| == |t.pods| + (if HasPodId(t.pods, pod.id) then 0 else 1)
    ensures !HasPodId(t.pods, pod.id) ==> r.pods[|t.pods|] == PodToRow(pod, t.nextPodRowid)
  {
    if HasPodId(t.pods, pod.id) then t
    else
      var r := t.(pods := t.pods + [PodToRow(pod, t.nextPodRowid)], nextPodRowid := t.nextPodRowid + 1);
      assert r.pods[|t.pods|].id == pod.id;
      r
  }

  /** `insert into episodes`, with the same primary-key rule. */
  function InsertEpisode(t: Tables, episode: Episode): (r: Tables)
    ensures HasEpisodeId(r.episodes, episode.id)
    ensures HasEpisodeId(t.episodes, episode.id) ==> r == t
    ensures r.pods == t.pods && r.nextPodRowid == t.nextPodRowid
    ensures t.episodes <= r.episodes
    ensures |r.episodes| == |t.episodes| + (if HasEpisodeId(t.episodes, episode.id) then 0 else 1)
    ensures !HasEpisodeId(t.episodes, episode.id) ==>
      r.episodes[|t.episodes|] == EpisodeToRow(episode, t.nextEpisodeRowid)
  {
    if HasEpisodeId(t.episodes, episode.id) then t
    else
      var r := t.(episodes := t.episodes + [EpisodeToRow(episode, t.nextEpisodeRowid)],
                  nextEpisodeRowid := t.nextEpisodeRowid + 1);
      assert r.episodes[|t.episodes|].id == episode.id;
      r
  }

  /** An insert keeps the primary keys unique and the rowids increasing. */
  lemma InsertPodKeepsValid(t: Tables, pod: Pod)
    requires TablesValid(t)
    ensures TablesValid(InsertPod(t, pod))
  {
    if !HasPodId(t.pods, pod.id) {
      var r := InsertPod(t, pod);
      assert forall i | 0 <= i < |t.pods| :: r.pods[i] == t.pods[i];
      assert forall i | 0 <= i < |t.pods| :: PodRowId(r.pods[i]) != PodRowId(r.pods[|t.pods|]);
    }
  }

  lemma InsertEpisodeKeepsValid(t: Tables, episode: Episode)
    requires TablesValid(t)
    ensures TablesValid(InsertEpisode(t, episode))
  {
    if !HasEpisodeId(t.episodes, episode.id) {
      var r := InsertEpisode(t, episode);
      assert forall i | 0 <= i < |t.episodes| :: r.episodes[i] == t.episodes[i];
      assert forall i | 0 <= i < |t.episodes| :: EpisodeRowId(r.episodes[i]) != EpisodeRowId(r.episodes[|t.episodes|]);
    }
  }

  /** The rowids the full-text subquery `select rowid from x_fts where x_fts match ?` yields.
      Its `order by rank` is lost in the `in` test of the outer query, so it is a set. */
  function MatchingRowids(index: map<nat, FtsEntry>, matches: (string, FtsEntry) -> bool, keywords: string): (hits: set<nat>)
    ensures hits <= index.Keys
    ensures forall k | k in index :: k in hits <==> matches(keywords, index[k])
  {
    set k | k in index && matches(keywords, index[k])
  }

  /** `limit ?` in SQLite: a negative limit means no limit. */
  function Limit(num: int, available: nat): (n: nat)
    ensures n <= available
    ensures 0 <= num ==> n <= num
    ensures n == available || n == num
  {
    if num < 0 || num > available then available else num
  }

  /** Rows ordered by `added`, latest first. */
  ghost predicate LatestFirst(rows: seq<PodRow>)
  {
    forall i, j | 0 <= i < j < |rows| :: NotAfter(rows[j].added, rows[i].added)
  }

  function IndexOfLatest(rows: seq<PodRow>): (k: nat)
    requires |rows| > 0
    ensures k < |rows|
    ensures forall j | 0 <= j < |rows| :: NotAfter(rows[j].added, rows[k].added)
  {
    if |rows| == 1 then 0
    else
      var k := IndexOfLatest(rows[1..]) + 1;
      assert forall j | 1 <= j < |rows| :: rows[j] == rows[1..][j - 1];
      if NotAfter(rows[0].added, rows[k].added) then k
      else
        assert forall j | 1 <= j < |rows| :: NotAfter(rows[j].added, rows[0].added) by {
          NotAfterTotal(rows[0].added, rows[k].added);
          forall j | 1 <= j < |rows| ensures NotAfter(rows[j].added, rows[0].added) {
            NotAfterTransitive(rows[j].added, rows[k].added, rows[0].added);
          }
        }
        0
  }

  /** The rows without the one at position `k`. */
  function Without(rows: seq<PodRow>, k: nat): (r: seq<PodRow>)
    requires k < |rows|
    ensures |r| == |rows| - 1
    ensures multiset(r) + multiset{rows[k]} == multiset(rows)
  {
    assert rows == rows[..k] + [rows[k]] + rows[k + 1..];
    rows[..k] + rows[k + 1..]
  }

  /** `order by added desc`: a permutation of the rows (ordering proved below). */
  function SortByAddedDesc(rows: seq<PodRow>): (r: seq<PodRow>)
    ensures |r| == |rows| && multiset(r) == multiset(rows)
    decreases |rows|
  {
    if rows == [] then []
    else
      var k := IndexOfLatest(rows);
      [rows[k]] + SortByAddedDesc(Without(rows, k))
  }

  /** Every row the sort returns is a row it was given. */
  lemma SortedRowsComeFromInput(rows: seq<PodRow>, x: PodRow)
    requires x in SortByAddedDesc(rows)
    ensures x in rows
  {
    assert x in multiset(SortByAddedDesc(rows));
  }

  /** A row added no earlier than every row of a latest-first list can head it. */
  lemma ConsLatestFirst(x: PodRow, rest: seq<PodRow>)
    requires LatestFirst(rest)
    requires forall j | 0 <= j < |rest| :: NotAfter(rest[j].added, x.added)
    ensures LatestFirst([x] + rest)
  {
    var r := [x] + rest;
    forall i, j | 0 <= i < j < |r| ensures NotAfter(r[j].added, r[i].added) {
      assert r[j] == rest[j - 1];
      if i > 0 {
        assert r[i] == rest[i - 1];
      }
    }
  }

  /** The sorted rows are latest first. */
  lemma {:induction false} SortByAddedDescIsLatestFirst(rows: seq<PodRow>)
    ensures LatestFirst(SortByAddedDesc(rows))
    decreases |rows|
  {
    if rows != [] {
      var k := IndexOfLatest(rows);
      var rest := Without(rows, k);
      var tail := SortByAddedDesc(rest);
      SortByAddedDescIsLatestFirst(rest);
      forall j | 0 <= j < |tail| ensures NotAfter(tail[j].added, rows[k].added) {
        SortedRowsComeFromInput(rest, tail[j]);
        assert tail[j] in multiset(rest);
        assert tail[j] in rows;
      }
      ConsLatestFirst(rows[k], tail);
    }
  }

  /** Dropping a row keeps the rest latest first. */
  lemma WithoutKeepsLatestFirst(rows: seq<PodRow>, k: nat)
    requires LatestFirst(rows) && k < |rows|
    ensures LatestFirst(Without(rows, k))
  {
    var r := Without(rows, k);
    forall i, j | 0 <= i < j < |r| ensures NotAfter(r[j].added, r[i].added) {
      var i' := if i < k then i else i + 1;
      var j' := if j < k then j else j + 1;
      assert r[i] == rows[i'] && r[j] == rows[j'];
    }
  }

  /** The head of a latest-first list is no earlier than any of its rows. */
  lemma HeadIsLatest(rows: seq<PodRow>, y: PodRow)
    requires LatestFirst(rows) && y in rows
    ensures NotAfter(y.added, rows[0].added)
  {
    var p :| 0 <= p < |rows| && rows[p] == y;
  }

  /** In a latest-first list, every row up to one that is as late as the whole list ties with it. */
  lemma TiedPrefix(b: seq<PodRow>, k: nat)
    requires LatestFirst(b) && k < |b|
    requires forall j | 0 <= j < |b| :: NotAfter(b[j].added, b[k].added)
    ensures forall i | 0 <= i <= k :: b[i].added == b[k].added
  {
    forall i | 0 <= i <= k ensures b[i].added == b[k].added {
      NotAfterAntisymmetric(b[i].added, b[k].added);
    }
  }

  /** Any two latest-first orderings of the same rows list the same `added` values position
      by position: `order by added desc` leaves open only the order among ties. */
  lemma {:induction false} LatestFirstAddedIsDetermined(a: seq<PodRow>, b: seq<PodRow>)
    requires multiset(a) == multiset(b)
    requires LatestFirst(a) && LatestFirst(b)
    ensures |a| == |b|
    ensures forall i | 0 <= i < |a| :: a[i].added == b[i].added
    decreases |a|
  {
    assert |a| == |multiset(a)| == |multiset(b)| == |b|;
    if a != [] {
      var x := a[0];
      assert x in multiset(b);
      var k :| 0 <= k < |b| && b[k] == x;
      forall j | 0 <= j < |b| ensures NotAfter(b[j].added, x.added) {
        assert b[j] in multiset(a);
        HeadIsLatest(a, b[j]);
      }
      TiedPrefix(b, k);
      var tail := a[1..];
      var rest := Without(b, k);
      DropMatchingHead(a, b, k);
      assert LatestFirst(tail) by {
        forall i, j | 0 <= i < j < |tail| ensures NotAfter(tail[j].added, tail[i].added) {
          assert tail[i] == a[i + 1] && tail[j] == a[j + 1];
        }
      }
      WithoutKeepsLatestFirst(b, k);
      LatestFirstAddedIsDetermined(tail, rest);
      forall i | 1 <= i < |a| ensures a[i].added == b[i].added {
        assert a[i] == tail[i - 1];
        if i <= k {
          assert rest[i - 1] == b[i - 1];
        } else {
          assert rest[i - 1] == b[i];
        }
      }
    }
  }

  /** Dropping the same row from two orderings of the same rows leaves two orderings of the
      same rows. */
  lemma DropMatchingHead(a: seq<PodRow>, b: seq<PodRow>, k: nat)
    requires multiset(a) == multiset(b) && a != [] && k < |b| && b[k] == a[0]
    ensures multiset(Without(b, k)) == multiset(a[1..])
  {
    assert a == [a[0]] + a[1..];
    assert multiset(a[1..]) == multiset(a) - multiset{a[0]};
  }

  /** Dropping a row keeps the ids unique, and no remaining row has the dropped row's id. */
  lemma WithoutKeepsUniqueIds(rows: seq<PodRow>, k: nat)
    requires UniqueBy(rows, PodRowId) && k < |rows|
    ensures UniqueBy(Without(rows, k), PodRowId)
    ensures forall x | x in Without(rows, k) :: x.id != rows[k].id
  {
    var r := Without(rows, k);
    forall i, j | 0 <= i < j < |r| ensures PodRowId(r[i]) != PodRowId(r[j]) {
      var i' := if i < k then i else i + 1;
      var j' := if j < k then j else j + 1;
      assert r[i] == rows[i'] && r[j] == rows[j'];
    }
    forall x | x in r ensures x.id != rows[k].id {
      var p :| 0 <= p < |r| && r[p] == x;
      var p' := if p < k then p else p + 1;
      assert r[p] == rows[p'];
    }
  }

  /** Sorting a table whose ids are unique keeps them unique: no row comes out twice. */
  lemma {:induction false} SortKeepsUniqueIds(rows: seq<PodRow>)
    requires UniqueBy(rows, PodRowId)
    ensures UniqueBy(SortByAddedDesc(rows), PodRowId)
    decreases |rows|
  {
    if rows != [] {
      var k := IndexOfLatest(rows);
      var rest := Without(rows, k);
      WithoutKeepsUniqueIds(rows, k);
      SortKeepsUniqueIds(rest);
      var tail := SortByAddedDesc(rest);
      forall j | 0 <= j < |tail| ensures tail[j].id != rows[k].id {
        SortedRowsComeFromInput(rest, tail[j]);
      }
      ConsUniqueIds(rows[k], tail);
    }
  }

  /** A row whose id no row of a uniquely keyed list has can head that list. */
  lemma ConsUniqueIds(x: PodRow, tail: seq<PodRow>)
    requires UniqueBy(tail, PodRowId)
    requires forall j | 0 <= j < |tail| :: tail[j].id != x.id
    ensures UniqueBy([x] + tail, PodRowId)
  {
    var r := [x] + tail;
    forall i, j | 0 <= i < j < |r| ensures PodRowId(r[i]) != PodRowId(r[j]) {
      assert r[j] == tail[j - 1];
      if i > 0 {
        assert r[i] == tail[i - 1];
      }
    }
  }

  /** `select * from podcasts order by added desc limit ?`. */
  function TopRows(pods: seq<PodRow>, num: int): (top: seq<PodRow>)
    ensures |top| == Limit(num, |pods|)
    ensures top == SortByAddedDesc(pods)[..|top|]
  {
    SortByAddedDesc(pods)[..Limit(num, |pods|)]
  }

  /** The rows `TopRows` keeps are rows of the table, latest first, and every row it
      leaves out was added no later than any row it keeps. */
  lemma TopRowsAreLatest(pods: seq<PodRow>, num: int)
    ensures |TopRows(pods, num)| == Limit(num, |pods|)
    ensures LatestFirst(TopRows(pods, num))
    ensures forall row | row in TopRows(pods, num) :: row in pods
    ensures forall row, i | row in pods && row !in TopRows(pods, num) && 0 <= i < |TopRows(pods, num)| ::
      NotAfter(row.added, TopRows(pods, num)[i].added)
  {
    var sorted := SortByAddedDesc(pods);
    var n := Limit(num, |pods|);
    var top := sorted[..n];
    assert TopRows(pods, num) == top;
    SortByAddedDescIsLatestFirst(pods);
    forall row | row in top ensures row in pods {
      SortedRowsComeFromInput(pods, row);
    }
    forall row, i | row in pods && row !in top && 0 <= i < |top|
      ensures NotAfter(row.added, top[i].added)
    {
      assert row in multiset(sorted);
      LeftOutRowIsNotLater(sorted, n, row, i);
    }
  }

  /** The query returns table rows, each at most as often as the table holds it. */
  lemma TopRowsAreTableRows(pods: seq<PodRow>, num: int)
    ensures multiset(TopRows(pods, num)) <= multiset(pods)
  {
    var sorted := SortByAddedDesc(pods);
    var n := Limit(num, |pods|);
    assert sorted == sorted[..n] + sorted[n..];
  }

  /** On a table with unique ids the query returns each show at most once. */
  lemma TopRowsHaveUniqueIds(pods: seq<PodRow>, num: int)
    requires UniqueBy(pods, PodRowId)
    ensures UniqueBy(TopRows(pods, num), PodRowId)
  {
    SortKeepsUniqueIds(pods);
    var sorted := SortByAddedDesc(pods);
    var n := Limit(num, |pods|);
    assert forall q | 0 <= q < n :: sorted[..n][q] == sorted[q];
  }

  /** In a latest-first list, a row that is not among the first `n` is no later than any of them. */
  lemma LeftOutRowIsNotLater(sorted: seq<PodRow>, n: nat, row: PodRow, i: nat)
    requires LatestFirst(sorted) && n <= |sorted|
    requires row in sorted && row !in sorted[..n] && i < n
    ensures NotAfter(row.added, sorted[i].added)
  {
    var p :| 0 <= p < |sorted| && sorted[p] == row;
    assert forall q | 0 <= q < n :: sorted[..n][q] == sorted[q];
    assert i < n <= p;
  }

  /** The row scan of `GetEpisodes`: every row becomes one record, in order. */
  method GetEpisodes(rows: seq<EpisodeRow>) returns (episodes: seq<Episode>)
    ensures |episodes| == |rows|
    ensures forall i | 0 <= i < |rows| :: episodes[i] == RowToEpisode(rows[i])
  {
    episodes := [];
    for i := 0 to |rows|
      invariant |episodes| == i
      invariant forall j | 0 <= j < i :: episodes[j] == RowToEpisode(rows[j])
    {
      episodes := episodes + [RowToEpisode(rows[i])];
    }
  }

  /** The row scan of `GetPods`: every row becomes one record, categories split at commas. */
  method GetPods(rows: seq<PodRow>) returns (pods: seq<Pod>)
    ensures |pods| == |rows|
    ensures forall i | 0 <= i < |rows| :: pods[i] == RowToPod(rows[i])
  {
    pods := [];
    for i := 0 to |rows|
      invariant |pods| == i
      invariant forall j | 0 <= j < i :: pods[j] == RowToPod(rows[j])
    {
      pods := pods + [RowToPod(rows[i])];
    }
  }

  class Store {
    var pods: seq<PodRow>
    var episodes: seq<EpisodeRow>
    var podsFts: map<nat, FtsEntry>
    var episodesFts: map<nat, FtsEntry>
    var nextPodRowid: nat
    var nextEpisodeRowid: nat

    function State(): Tables
      reads this
    {
      Tables(pods, episodes, nextPodRowid, nextEpisodeRowid)
    }

    /** The store invariant: valid tables, and each shadow equal to the projection
        (rowid, title, description) of its base table. */
    ghost predicate Valid()
      reads this
    {
      && TablesValid(State())
      && podsFts == Mirror(Texts(pods, PodText))
      && episodesFts == Mirror(Texts(episodes, EpisodeText))
    }

    /** `ResetDb`: empty tables and empty shadows. */
    constructor ()
      ensures Valid()
      ensures pods == [] && episodes == []
    {
      pods, episodes := [], [];
      podsFts, episodesFts := map[], map[];
      nextPodRowid, nextEpisodeRowid := 1, 1;
    }

    /** `AddPod`: insert the show; the insert trigger adds its shadow entry. */
    method AddPod(pod: Pod) returns (err: Option<DbError>)
      requires Valid()
      modifies this
      ensures Valid()
      ensures err.None? <==> !HasPodId(old(pods), pod.id)
      ensures State() == InsertPod(old(State()), pod)
    {
      if HasPodId(pods, pod.id) {
        return Some(UniqueConstraintFailed("podcasts.id"));
      }
      var row := PodToRow(pod, nextPodRowid);
      var entry := FtsEntry(row.title, row.description);
      ghost var after := InsertPod(State(), pod);
      InsertPodKeepsValid(State(), pod);
      assert FtsInsert(podsFts, row.rowid, entry) == Mirror(Texts(pods + [row], PodText)) by {
        InsertTriggerMirrors(Texts(pods, PodText), Indexed(row.rowid, entry));
        TextsAppend(pods, row, PodText);
      }
      pods := pods + [row];
      podsFts := FtsInsert(podsFts, row.rowid, entry);
      nextPodRowid := nextPodRowid + 1;
      assert State() == after;
      assert TablesValid(State());
      err := None;
    }

    /** `AddEpisode`: insert the episode; the insert trigger adds its shadow entry. */
    method AddEpisode(episode: Episode) returns (err: Option<DbError>)
      requires Valid()
      modifies this
      ensures Valid()
      ensures err.None? <==> !HasEpisodeId(old(episodes), episode.id)
      ensures State() == InsertEpisode(old(State()), episode)
    {
      if HasEpisodeId(episodes, episode.id) {
        return Some(UniqueConstraintFailed("episodes.id"));
      }
      var row := EpisodeToRow(episode, nextEpisodeRowid);
      var entry := FtsEntry(row.title, row.description);
      ghost var after := InsertEpisode(State(), episode);
      InsertEpisodeKeepsValid(State(), episode);
      assert FtsInsert(episodesFts, row.rowid, entry) == Mirror(Texts(episodes + [row], EpisodeText)) by {
        InsertTriggerMirrors(Texts(episodes, EpisodeText), Indexed(row.rowid, entry));
        TextsAppend(episodes, row, EpisodeText);
      }
      episodes := episodes + [row];
      episodesFts := FtsInsert(episodesFts, row.rowid, entry);
      nextEpisodeRowid := nextEpisodeRowid + 1;
      assert State() == after;
      assert TablesValid(State());
      err := None;
    }

    /** `PodExists`: scan the ids of `podcasts`, stopping at the first match. */
    method PodExists(id: string) returns (found: bool)
      ensures found <==> HasPodId(pods, id)
    {
      var i := 0;
      while i < |pods|
        invariant 0 <= i <= |pods|
        invariant forall j | 0 <= j < i :: pods[j].id != id
      {
        if pods[i].id == id {
          return true;
        }
        i := i + 1;
      }
      return false;
    }

    /** `GetAllEpisodes`: the episodes of one show, each once, in no promised order. */
    method GetAllEpisodes(podId: string) returns (r: seq<Episode>)
      requires Valid()
      ensures forall e :: e in r <==> exists row :: row in episodes && row.podId == podId && e == RowToEpisode(row)
      ensures forall i, j | 0 <= i < j < |r| :: r[i].id != r[j].id
    {
      var keep := (row: EpisodeRow) => row.podId == podId;
      var rows := Filter(episodes, keep);
      r := GetEpisodes(rows);
      FilterKeepsUnique(episodes, keep, EpisodeRowId);
      EpisodeScanMembership(rows, r);
      forall i, j | 0 <= i < j < |r| ensures r[i].id != r[j].id {
        assert r[i].id == EpisodeRowId(rows[i]) && r[j].id == EpisodeRowId(rows[j]);
      }
    }

    /** `GetEpisode`: the single episode with this primary key. The source indexes the
        first result unconditionally, so the episode must exist. */
    method GetEpisode(id: string) returns (r: Episode)
      requires Valid()
      requires HasEpisodeId(episodes, id)
      ensures r.id == id
      ensures exists row :: row in episodes && row.id == id && r == RowToEpisode(row)
    {
      var keep := (row: EpisodeRow) => row.id == id;
      var rows := Filter(episodes, keep);
      var i :| 0 <= i < |episodes| && episodes[i].id == id;
      assert episodes[i] in rows;
      var found := GetEpisodes(rows);
      r := found[0];
      assert rows[0] in rows;
    }

    /** `GetPod`: the single show with this primary key, which must exist. */
    method GetPod(id: string) returns (r: Pod)
      requires Valid()
      requires HasPodId(pods, id)
      ensures r.id == id
      ensures exists row :: row in pods && row.id == id && r == RowToPod(row)
    {
      var keep := (row: PodRow) => row.id == id;
      var rows := Filter(pods, keep);
      var i :| 0 <= i < |pods| && pods[i].id == id;
      assert pods[i] in rows;
      var found := GetPods(rows);
      r := found[0];
      assert rows[0] in rows;
    }

    /** `TopPods`: at most `num` shows (all of them when `num` is negative), latest first,
        and no show left out was added after one that was returned. */
    method TopPods(num: int) returns (r: seq<Pod>)
      requires Valid()
      ensures |r| == Limit(num, |pods|)
      ensures forall i, j | 0 <= i < j < |r| :: NotAfter(r[j].added, r[i].added)
      ensures forall p | p in r :: exists row :: row in pods && p == RowToPod(row)
      ensures forall row | row in pods && (forall i | 0 <= i < |r| :: r[i].id != row.id) ::
        forall i | 0 <= i < |r| :: NotAfter(row.added, r[i].added)
      ensures forall i, j | 0 <= i < j < |r| :: r[i].id != r[j].id
    {
      var rows := TopRows(pods, num);
      r := GetPods(rows);
      PodsOfTopRowsOfTable(pods, num, r);
    }

    /** `SearchPods`: the shows whose indexed title and description match the query.
        There is no approval filter, and the relevance order is not kept. */
    method SearchPods(matches: (string, FtsEntry) -> bool, keywords: string) returns (r: seq<Pod>)
      requires Valid()
      ensures forall p :: p in r <==>
        exists row :: row in pods && matches(keywords, FtsEntry(row.title, row.description)) && p == RowToPod(row)
      ensures forall i, j | 0 <= i < j < |r| :: r[i].id != r[j].id
    {
      var hits := MatchingRowids(podsFts, matches, keywords);
      var keep := (row: PodRow) => row.rowid in hits;
      var rows := Filter(pods, keep);
      r := GetPods(rows);
      IncreasingRowidsAreUnique(Texts(pods, PodText));
      MirrorContents(Texts(pods, PodText));
      forall row | row in pods
        ensures row.rowid in hits <==> matches(keywords, FtsEntry(row.title, row.description))
      {
        var i :| 0 <= i < |pods| && pods[i] == row;
        assert Texts(pods, PodText)[i].rowid == row.rowid;
      }
      PodScanMembership(rows, r);
      FilterKeepsUnique(pods, keep, PodRowId);
      forall i, j | 0 <= i < j < |r| ensures r[i].id != r[j].id {
        assert r[i].id == PodRowId(rows[i]) && r[j].id == PodRowId(rows[j]);
      }
    }

    /** `SearchEpisodes`: the episodes of one show whose indexed text matches the query. */
    method SearchEpisodes(matches: (string, FtsEntry) -> bool, podId: string, keywords: string) returns (r: seq<Episode>)
      requires Valid()
      ensures forall e :: e in r <==>
        exists row :: row in episodes && row.podId == podId
          && matches(keywords, FtsEntry(row.title, row.description)) && e == RowToEpisode(row)
      ensures forall i, j | 0 <= i < j < |r| :: r[i].id != r[j].id
    {
      var hits := MatchingRowids(episodesFts, matches, keywords);
      var keep := (row: EpisodeRow) => row.rowid in hits && row.podId == podId;
      var rows := Filter(episodes, keep);
      r := GetEpisodes(rows);
      IncreasingRowidsAreUnique(Texts(episodes, EpisodeText));
      MirrorContents(Texts(episodes, EpisodeText));
      forall row | row in episodes
        ensures row.rowid in hits <==> matches(keywords, FtsEntry(row.title, row.description))
      {
        var i :| 0 <= i < |episodes| && episodes[i] == row;
        assert Texts(episodes, EpisodeText)[i].rowid == row.rowid;
      }
      EpisodeScanMembership(rows, r);
      FilterKeepsUnique(episodes, keep, EpisodeRowId);
      forall i, j | 0 <= i < j < |r| ensures r[i].id != r[j].id {
        assert r[i].id == EpisodeRowId(rows[i]) && r[j].id == EpisodeRowId(rows[j]);
      }
    }
  }

  /** The records `TopPods` builds from the query's rows: `Limit(num, n)` shows of the table,
      latest first, each at most once, and no show left out was added after one returned. */
  lemma PodsOfTopRowsOfTable(pods: seq<PodRow>, num: int, r: seq<Pod>)
    requires UniqueBy(pods, PodRowId)
    requires |r| == |TopRows(pods, num)|
    requires forall i | 0 <= i < |r| :: r[i] == RowToPod(TopRows(pods, num)[i])
    ensures |r| == Limit(num, |pods|)
    ensures forall i, j | 0 <= i < j < |r| :: NotAfter(r[j].added, r[i].added)
    ensures forall p | p in r :: exists row :: row in pods && p == RowToPod(row)
    ensures forall row | row in pods && (forall i | 0 <= i < |r| :: r[i].id != row.id) ::
      forall i | 0 <= i < |r| :: NotAfter(row.added, r[i].added)
    ensures forall i, j | 0 <= i < j < |r| :: r[i].id != r[j].id
  {
    TopRowsAreLatest(pods, num);
    TopRowsHaveUniqueIds(pods, num);
    PodsOfTopRows(pods, TopRows(pods, num), r);
  }

  /** What `TopRowsAreLatest` and `TopRowsHaveUniqueIds` say about rows, restated for the
      records built from them. */
  lemma PodsOfTopRows(pods: seq<PodRow>, rows: seq<PodRow>, r: seq<Pod>)
    requires |r| == |rows|
    requires forall i | 0 <= i < |rows| :: r[i] == RowToPod(rows[i])
    requires LatestFirst(rows) && UniqueBy(rows, PodRowId)
    requires forall row | row in rows :: row in pods
    requires forall row, i | row in pods && row !in rows && 0 <= i < |rows| :: NotAfter(row.added, rows[i].added)
    ensures forall i, j | 0 <= i < j < |r| :: NotAfter(r[j].added, r[i].added)
    ensures forall p | p in r :: exists row :: row in pods && p == RowToPod(row)
    ensures forall row | row in pods && (forall i | 0 <= i < |r| :: r[i].id != row.id) ::
      forall i | 0 <= i < |r| :: NotAfter(row.added, r[i].added)
    ensures forall i, j | 0 <= i < j < |r| :: r[i].id != r[j].id
  {
    forall i, j | 0 <= i < j < |r| ensures NotAfter(r[j].added, r[i].added) && r[i].id != r[j].id {
      assert r[i] == RowToPod(rows[i]) && r[j] == RowToPod(rows[j]);
      assert PodRowId(rows[i]) != PodRowId(rows[j]);
    }
    PodsComeFromTable(pods, rows, r);
    PodsLeftOutAreNotLater(pods, rows, r);
  }

  /** Every record built from rows of the table is the record of a table row. */
  lemma PodsComeFromTable(pods: seq<PodRow>, rows: seq<PodRow>, r: seq<Pod>)
    requires |r| == |rows|
    requires forall i | 0 <= i < |rows| :: r[i] == RowToPod(rows[i])
    requires forall row | row in rows :: row in pods
    ensures forall p | p in r :: exists row :: row in pods && p == RowToPod(row)
  {
    forall p | p in r ensures exists row :: row in pods && p == RowToPod(row) {
      var i :| 0 <= i < |r| && r[i] == p;
      var row := rows[i];
      assert row in rows;
      assert row in pods && p == RowToPod(row);
    }
  }

  /** A table row whose id no record carries was left out, so it is no later than any record. */
  lemma PodsLeftOutAreNotLater(pods: seq<PodRow>, rows: seq<PodRow>, r: seq<Pod>)
    requires |r| == |rows|
    requires forall i | 0 <= i < |rows| :: r[i] == RowToPod(rows[i])
    requires forall row, i | row in pods && row !in rows && 0 <= i < |rows| :: NotAfter(row.added, rows[i].added)
    ensures forall row | row in pods && (forall i | 0 <= i < |r| :: r[i].id != row.id) ::
      forall i | 0 <= i < |r| :: NotAfter(row.added, r[i].added)
  {
    forall row | row in pods && (forall i | 0 <= i < |r| :: r[i].id != row.id)
      ensures forall i | 0 <= i < |r| :: NotAfter(row.added, r[i].added)
    {
      forall p | 0 <= p < |rows| ensures rows[p] != row {
        assert r[p].id == rows[p].id;
      }
      forall i | 0 <= i < |r| ensures NotAfter(row.added, r[i].added) {
        assert r[i].added == rows[i].added;
      }
    }
  }

  lemma EpisodeScanMembership(rows: seq<EpisodeRow>, r: seq<Episode>)
    requires |r| == |rows|
    requires forall i | 0 <= i < |rows| :: r[i] == RowToEpisode(rows[i])
    ensures forall e :: e in r <==> exists row :: row in rows && e == RowToEpisode(row)
  {
    forall e | (exists row :: row in rows && e == RowToEpisode(row)) ensures e in r {
      var row :| row in rows && e == RowToEpisode(row);
      var i :| 0 <= i < |rows| && rows[i] == row;
      assert r[i] == e;
    }
  }

  lemma PodScanMembership(rows: seq<PodRow>, r: seq<Pod>)
    requires |r| == |rows|
    requires forall i | 0 <= i < |rows| :: r[i] == RowToPod(rows[i])
    ensures forall p :: p in r <==> exists row :: row in rows && p == RowToPod(row)
  {
    forall p | (exists row :: row in rows && p == RowToPod(row)) ensures p in r {
      var row :| row in rows && p == RowToPod(row);
      var i :| 0 <= i < |rows| && rows[i] == row;
      assert r[i] == p;
    }
  }
}
