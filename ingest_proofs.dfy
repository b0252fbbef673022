/**
 * Properties of feed ingestion: when a run stops with "no content", what a run adds,
 * how runs over consecutive item lists compose, and re-ingestion of an unchanged feed.
 */
module IngestProofs {
  import opened Wrappers
  import opened Identity
  import opened Times
  import opened PubDate
  import opened Podcasts
  import opened Catalog
  import opened Ingestion

  /** One turn of the item loop, case by case. */
  lemma IngestItemsStep(t: Tables, run: Run, known: set<string>, items: seq<Item>)
    requires items != [] && CanProcess(run, known, items)
    ensures ItemId(run, items[0]) in known ==>
      CanProcess(run, known, items[1..]) && IngestItems(t, run, known, items) == IngestItems(t, run, known, items[1..])
    ensures ItemId(run, items[0]) !in known && |items[0].enclosures| == 0 ==>
      IngestItems(t, run, known, items) == (t, Some(NoContent))
    ensures ItemId(run, items[0]) !in known && |items[0].enclosures| > 0 ==>
      Storable(run, items[0]) && CanProcess(run, known, items[1..])
      && IngestItems(t, run, known, items) == IngestItems(InsertEpisode(t, NewEpisode(run, items[0])), run, known, items[1..])
  {
  }

  /** The item loop keeps the primary keys unique and the rowids increasing. */
  lemma {:induction false} IngestItemsKeepsValid(t: Tables, run: Run, known: set<string>, items: seq<Item>)
    requires TablesValid(t) && CanProcess(run, known, items)
    ensures TablesValid(IngestItems(t, run, known, items).0)
    decreases |items|
  {
    if items != [] {
      var item := items[0];
      if ItemId(run, item) in known {
        IngestItemsKeepsValid(t, run, known, items[1..]);
      } else if |item.enclosures| > 0 {
        InsertEpisodeKeepsValid(t, NewEpisode(run, item));
        IngestItemsKeepsValid(InsertEpisode(t, NewEpisode(run, item)), run, known, items[1..]);
      }
    }
  }

  /** A whole run keeps the tables valid. */
  lemma IngestKeepsValid(t: Tables, env: Env, rssLink: string, feed: Feed, now: DateTime)
    requires TablesValid(t) && CanIngest(t, env, rssLink, feed, now)
    ensures TablesValid(Ingest(t, env, rssLink, feed, now).0)
  {
    var id := ShowId(env.sha1, rssLink);
    var t1 := if HasPodId(t.pods, id) then t else InsertPod(t, NewPod(env, rssLink, feed, now));
    if !HasPodId(t.pods, id) {
      InsertPodKeepsValid(t, NewPod(env, rssLink, feed, now));
    }
    assert KnownIds(t1.episodes, id) == KnownIds(t.episodes, id);
    IngestItemsKeepsValid(t1, Run(env, rssLink, feed.image, now), KnownIds(t1.episodes, id), feed.items);
  }

  /** A known item is skipped before its date or enclosures are looked at. */
  lemma KnownItemIsSkipped(t: Tables, run: Run, known: set<string>, item: Item, rest: seq<Item>)
    requires ItemId(run, item) in known
    ensures CanProcess(run, known, [item] + rest) <==> CanProcess(run, known, rest)
    ensures CanProcess(run, known, rest) ==> IngestItems(t, run, known, [item] + rest) == IngestItems(t, run, known, rest)
  {
    assert ([item] + rest)[1..] == rest;
  }

  /** A run returns "no content" exactly when some item with an unknown id has no enclosures. */
  lemma {:induction false} AbortsIff(t: Tables, run: Run, known: set<string>, items: seq<Item>)
    requires CanProcess(run, known, items)
    ensures IngestItems(t, run, known, items).1 == Some(NoContent) <==>
      exists i | 0 <= i < |items| :: ItemId(run, items[i]) !in known && |items[i].enclosures| == 0
    decreases |items|
  {
    if items != [] {
      var item := items[0];
      if ItemId(run, item) in known {
        AbortsIff(t, run, known, items[1..]);
        ShiftExists(run, known, items);
      } else if |item.enclosures| > 0 {
        AbortsIff(InsertEpisode(t, NewEpisode(run, item)), run, known, items[1..]);
        ShiftExists(run, known, items);
      }
    }
  }

  /** An item other than the first that is new and empty is an item of the tail. */
  lemma ShiftExists(run: Run, known: set<string>, items: seq<Item>)
    requires items != [] && (ItemId(run, items[0]) in known || |items[0].enclosures| > 0)
    ensures (exists i | 0 <= i < |items| :: ItemId(run, items[i]) !in known && |items[i].enclosures| == 0) <==>
      (exists i | 0 <= i < |items[1..]| :: ItemId(run, items[1..][i]) !in known && |items[1..][i].enclosures| == 0)
  {
    if exists i | 0 <= i < |items| :: ItemId(run, items[i]) !in known && |items[i].enclosures| == 0 {
      var i :| 0 <= i < |items| && ItemId(run, items[i]) !in known && |items[i].enclosures| == 0;
      assert items[1..][i - 1] == items[i];
    }
  }

  /** A feed whose items are all known adds nothing and succeeds. */
  lemma {:induction false} AllKnownAddsNothing(t: Tables, run: Run, known: set<string>, items: seq<Item>)
    requires forall i | 0 <= i < |items| :: ItemId(run, items[i]) in known
    ensures CanProcess(run, known, items)
    ensures IngestItems(t, run, known, items) == (t, None)
    decreases |items|
  {
    if items != [] {
      assert forall i | 0 <= i < |items[1..]| :: items[1..][i] == items[i + 1];
      AllKnownAddsNothing(t, run, known, items[1..]);
    }
  }

  /** Running the loop over `xs + ys` is running it over `xs` and, unless that stopped,
      over `ys` from the tables it left. */
  lemma {:induction false} IngestItemsAppend(t: Tables, run: Run, known: set<string>, xs: seq<Item>, ys: seq<Item>)
    requires CanProcess(run, known, xs + ys)
    ensures CanProcess(run, known, xs)
    ensures IngestItems(t, run, known, xs).1.None? ==> CanProcess(run, known, ys)
    ensures IngestItems(t, run, known, xs + ys) ==
      (var a := IngestItems(t, run, known, xs); if a.1.Some? then a else IngestItems(a.0, run, known, ys))
    decreases |xs|
  {
    if xs == [] {
      assert xs + ys == ys;
    } else {
      assert (xs + ys)[0] == xs[0];
      assert (xs + ys)[1..] == xs[1..] + ys;
      var item := xs[0];
      if ItemId(run, item) in known {
        IngestItemsAppend(t, run, known, xs[1..], ys);
      } else if |item.enclosures| > 0 {
        IngestItemsAppend(InsertEpisode(t, NewEpisode(run, item)), run, known, xs[1..], ys);
      }
    }
  }

  /** A feed extended by items the loop can process stays processable when no new item of
      the first part lacks enclosures. */
  lemma {:induction false} CanProcessAppend(run: Run, known: set<string>, xs: seq<Item>, ys: seq<Item>)
    requires CanProcess(run, known, xs) && CanProcess(run, known, ys)
    requires forall i | 0 <= i < |xs| :: ItemId(run, xs[i]) !in known ==> |xs[i].enclosures| > 0
    ensures CanProcess(run, known, xs + ys)
    decreases |xs|
  {
    if xs == [] {
      assert xs + ys == ys;
    } else {
      assert (xs + ys)[0] == xs[0];
      assert (xs + ys)[1..] == xs[1..] + ys;
      assert forall i | 0 <= i < |xs[1..]| :: xs[1..][i] == xs[i + 1];
      CanProcessAppend(run, known, xs[1..], ys);
    }
  }

  /** An item appended to a feed that ingested without error adds exactly the episode of
      that item (or nothing, when its id is already taken). */
  lemma AppendedItemAddsItsEpisode(t: Tables, run: Run, known: set<string>, items: seq<Item>, item: Item)
    requires CanProcess(run, known, items)
    requires IngestItems(t, run, known, items).1.None?
    requires ItemId(run, item) !in known && Storable(run, item)
    ensures CanProcess(run, known, items + [item])
    ensures IngestItems(t, run, known, items + [item]) ==
      (InsertEpisode(IngestItems(t, run, known, items).0, NewEpisode(run, item)), None)
  {
    assert [item][1..] == [];
    assert CanProcess(run, known, [item]);
    AbortsIff(t, run, known, items);
    CanProcessAppend(run, known, items, [item]);
    IngestItemsAppend(t, run, known, items, [item]);
    var a := IngestItems(t, run, known, items);
    assert IngestItems(a.0, run, known, [item]) ==
      IngestItems(InsertEpisode(a.0, NewEpisode(run, item)), run, known, []);
  }

  /** Every row a run adds is the episode of a new item that has enclosures. */
  ghost predicate FromNewItem(run: Run, known: set<string>, items: seq<Item>, row: EpisodeRow)
  {
    exists i | 0 <= i < |items| ::
      ItemId(run, items[i]) !in known && Storable(run, items[i])
      && row == EpisodeToRow(NewEpisode(run, items[i]), row.rowid)
  }

  /** A row made from an item of the tail is made from an item of the list. */
  lemma FromNewItemOfTail(run: Run, known: set<string>, items: seq<Item>, row: EpisodeRow)
    requires items != [] && FromNewItem(run, known, items[1..], row)
    ensures FromNewItem(run, known, items, row)
  {
    var i :| 0 <= i < |items[1..]| && ItemId(run, items[1..][i]) !in known && Storable(run, items[1..][i])
      && row == EpisodeToRow(NewEpisode(run, items[1..][i]), row.rowid);
    assert items[i + 1] == items[1..][i];
  }

  lemma {:induction false} AddedRowsComeFromNewItems(t: Tables, run: Run, known: set<string>, items: seq<Item>)
    requires CanProcess(run, known, items)
    ensures forall j | |t.episodes| <= j < |IngestItems(t, run, known, items).0.episodes| ::
      FromNewItem(run, known, items, IngestItems(t, run, known, items).0.episodes[j])
    decreases |items|
  {
    if items != [] {
      var item := items[0];
      var tail := items[1..];
      IngestItemsStep(t, run, known, items);
      var rows := IngestItems(t, run, known, items).0.episodes;
      var t1 := if ItemId(run, item) in known || |item.enclosures| == 0 then t
                else InsertEpisode(t, NewEpisode(run, item));
      if ItemId(run, item) in known || |item.enclosures| > 0 {
        assert rows == IngestItems(t1, run, known, tail).0.episodes;
        assert forall j | |t1.episodes| <= j < |rows| :: FromNewItem(run, known, tail, rows[j]) by {
          AddedRowsComeFromNewItems(t1, run, known, tail);
        }
      }
      forall j | |t.episodes| <= j < |rows| ensures FromNewItem(run, known, items, rows[j]) {
        if j < |t1.episodes| {
          InsertedRowIsFromHead(t, run, known, items, rows, j);
        } else {
          FromNewItemOfTail(run, known, items, rows[j]);
        }
      }
    }
  }

  /** The row the first item inserts is made from a new item of the list. */
  lemma InsertedRowIsFromHead(t: Tables, run: Run, known: set<string>, items: seq<Item>, rows: seq<EpisodeRow>, j: nat)
    requires items != [] && ItemId(run, items[0]) !in known && Storable(run, items[0])
    requires InsertEpisode(t, NewEpisode(run, items[0])).episodes <= rows
    requires |t.episodes| <= j < |InsertEpisode(t, NewEpisode(run, items[0])).episodes|
    ensures FromNewItem(run, known, items, rows[j])
  {
    var t1 := InsertEpisode(t, NewEpisode(run, items[0]));
    assert rows[j] == t1.episodes[j] == EpisodeToRow(NewEpisode(run, items[0]), t.nextEpisodeRowid);
  }

  /** Every item is known or has its id stored in `rows`. */
  ghost predicate Covered(run: Run, known: set<string>, rows: seq<EpisodeRow>, items: seq<Item>)
  {
    forall i | 0 <= i < |items| :: ItemId(run, items[i]) in known || HasEpisodeId(rows, ItemId(run, items[i]))
  }

  lemma CoveredCons(run: Run, known: set<string>, rows: seq<EpisodeRow>, items: seq<Item>)
    requires items != [] && Covered(run, known, rows, items[1..])
    requires ItemId(run, items[0]) in known || HasEpisodeId(rows, ItemId(run, items[0]))
    ensures Covered(run, known, rows, items)
  {
    forall i | 1 <= i < |items|
      ensures ItemId(run, items[i]) in known || HasEpisodeId(rows, ItemId(run, items[i]))
    {
      assert items[i] == items[1..][i - 1];
    }
  }

  /** After a run without error, every item of the feed is either known or stored. */
  lemma {:induction false} SuccessStoresEveryItem(t: Tables, run: Run, known: set<string>, items: seq<Item>)
    requires CanProcess(run, known, items)
    requires IngestItems(t, run, known, items).1.None?
    ensures Covered(run, known, IngestItems(t, run, known, items).0.episodes, items)
    decreases |items|
  {
    if items != [] {
      var item := items[0];
      var tail := items[1..];
      IngestItemsStep(t, run, known, items);
      var t1 := if ItemId(run, item) in known then t else InsertEpisode(t, NewEpisode(run, item));
      var rows := IngestItems(t1, run, known, tail).0.episodes;
      SuccessStoresEveryItem(t1, run, known, tail);
      if ItemId(run, item) !in known {
        StoredIdStaysStored(t1.episodes, rows, ItemId(run, item));
      }
      CoveredCons(run, known, rows, items);
    }
  }

  /** Rows are only ever appended, so a stored id stays stored. */
  lemma StoredIdStaysStored(before: seq<EpisodeRow>, after: seq<EpisodeRow>, id: string)
    requires before <= after && HasEpisodeId(before, id)
    ensures HasEpisodeId(after, id)
  {
    var k :| 0 <= k < |before| && before[k].id == id;
    assert after[k] == before[k];
  }

  /** A second pass over items that all are known or stored changes nothing and succeeds,
      whatever the clock reads. */
  lemma {:induction false} RerunItemsIsNoOp(run: Run, known: set<string>, items: seq<Item>,
                                            s: Tables, known2: set<string>, run2: Run)
    requires CanProcess(run, known, items)
    requires forall i | 0 <= i < |items| :: ItemId(run, items[i]) !in known ==> |items[i].enclosures| > 0
    requires Covered(run, known, s.episodes, items)
    requires known <= known2
    requires run2.env == run.env && run2.rssLink == run.rssLink && run2.feedImage == run.feedImage
    ensures CanProcess(run2, known2, items)
    ensures IngestItems(s, run2, known2, items) == (s, None)
    decreases |items|
  {
    if items != [] {
      var item := items[0];
      var tail := items[1..];
      assert forall i | 0 <= i < |tail| :: tail[i] == items[i + 1];
      assert ItemId(run2, item) == ItemId(run, item);
      RerunItemsIsNoOp(run, known, tail, s, known2, run2);
      if ItemId(run, item) !in known2 {
        assert Storable(run, item);
        var e := NewEpisode(run2, item);
        assert e.id == ItemId(run, item);
        assert InsertEpisode(s, e) == s;
      }
    }
  }

  /** Ingesting a feed again after a run that ended without error adds no show and no
      episode and ends without error, even with a different clock reading. */
  lemma IngestIdempotent(t: Tables, env: Env, rssLink: string, feed: Feed, now: DateTime, later: DateTime)
    requires CanIngest(t, env, rssLink, feed, now)
    requires Ingest(t, env, rssLink, feed, now).1.None?
    ensures CanIngest(Ingest(t, env, rssLink, feed, now).0, env, rssLink, feed, later)
    ensures Ingest(Ingest(t, env, rssLink, feed, now).0, env, rssLink, feed, later) ==
      (Ingest(t, env, rssLink, feed, now).0, None)
  {
    var id := ShowId(env.sha1, rssLink);
    var t1 := if HasPodId(t.pods, id) then t else InsertPod(t, NewPod(env, rssLink, feed, now));
    var run := Run(env, rssLink, feed.image, now);
    var known := KnownIds(t1.episodes, id);
    assert known == KnownIds(t.episodes, id);
    var r := IngestItems(t1, run, known, feed.items);
    assert Ingest(t, env, rssLink, feed, now) == r;
    var known2 := KnownIds(r.0.episodes, id);
    assert known <= known2;
    AbortsIff(t1, run, known, feed.items);
    SuccessStoresEveryItem(t1, run, known, feed.items);
    var run2 := Run(env, rssLink, feed.image, later);
    RerunItemsIsNoOp(run, known, feed.items, r.0, known2, run2);
  }

  /** Every new item has enclosures, so a pass over the items cannot stop. */
  ghost predicate CannotStop(run: Run, known: set<string>, items: seq<Item>)
  {
    forall i | 0 <= i < |items| :: ItemId(run, items[i]) !in known ==> |items[i].enclosures| > 0
  }

  /** The facts a rerun needs about a handled list hold for both halves of it. */
  lemma HandledHalves(run: Run, known: set<string>, xs: seq<Item>, ys: seq<Item>, rows: seq<EpisodeRow>)
    requires CanProcess(run, known, xs + ys) && CannotStop(run, known, xs + ys)
    requires Covered(run, known, rows, xs + ys)
    ensures CanProcess(run, known, xs) && CannotStop(run, known, xs) && Covered(run, known, rows, xs)
    ensures CanProcess(run, known, ys) && CannotStop(run, known, ys) && Covered(run, known, rows, ys)
  {
    var zs := xs + ys;
    assert forall i | 0 <= i < |xs| :: xs[i] == zs[i];
    assert forall i | 0 <= i < |ys| :: ys[i] == zs[|xs| + i];
    IngestItemsAppend(Tables([], [], 1, 1), run, known, xs, ys);
    AbortsIff(Tables([], [], 1, 1), run, known, xs);
  }

  /** Covered items stay covered when rows are appended. */
  lemma CoveredGrows(run: Run, known: set<string>, rows: seq<EpisodeRow>, more: seq<EpisodeRow>, items: seq<Item>)
    requires Covered(run, known, rows, items) && rows <= more
    ensures Covered(run, known, more, items)
  {
    forall i | 0 <= i < |items| && ItemId(run, items[i]) !in known
      ensures HasEpisodeId(more, ItemId(run, items[i]))
    {
      StoredIdStaysStored(rows, more, ItemId(run, items[i]));
    }
  }

  /** A second pass over items that all are known or stored, with one new storable item
      placed anywhere among them, stores exactly that item's episode and succeeds. */
  lemma InsertedItemAddsItsEpisode(run: Run, known: set<string>, xs: seq<Item>, ys: seq<Item>,
                                   s: Tables, known2: set<string>, run2: Run, x: Item)
    requires CanProcess(run, known, xs + ys) && CannotStop(run, known, xs + ys)
    requires Covered(run, known, s.episodes, xs + ys)
    requires known <= known2
    requires run2.env == run.env && run2.rssLink == run.rssLink && run2.feedImage == run.feedImage
    requires Storable(run2, x) && ItemId(run2, x) !in known2
    ensures CanProcess(run2, known2, xs + [x] + ys)
    ensures IngestItems(s, run2, known2, xs + [x] + ys) == (InsertEpisode(s, NewEpisode(run2, x)), None)
  {
    assert xs + [x] + ys == xs + ([x] + ys);
    HandledHalves(run, known, xs, ys, s.episodes);
    RerunItemsIsNoOp(run, known, xs, s, known2, run2);
    NewItemThenRerun(run, known, ys, s, known2, run2, x);
    CannotStopOnRerun(run, known, xs, known2, run2);
    NoOpPrefix(s, run2, known2, xs, [x] + ys);
  }

  /** Items that cannot stop a pass cannot stop a rerun, which knows at least as much. */
  lemma CannotStopOnRerun(run: Run, known: set<string>, items: seq<Item>, known2: set<string>, run2: Run)
    requires CannotStop(run, known, items) && known <= known2
    requires run2.env == run.env && run2.rssLink == run.rssLink
    ensures CannotStop(run2, known2, items)
  {
    assert forall i | 0 <= i < |items| :: ItemId(run2, items[i]) == ItemId(run, items[i]);
  }

  /** Items a pass leaves alone, put in front, change nothing about the pass over the rest. */
  lemma NoOpPrefix(s: Tables, run: Run, known: set<string>, xs: seq<Item>, zs: seq<Item>)
    requires CanProcess(run, known, xs) && CannotStop(run, known, xs) && CanProcess(run, known, zs)
    requires IngestItems(s, run, known, xs) == (s, None)
    ensures CanProcess(run, known, xs + zs)
    ensures IngestItems(s, run, known, xs + zs) == IngestItems(s, run, known, zs)
  {
    CanProcessAppend(run, known, xs, zs);
    IngestItemsAppend(s, run, known, xs, zs);
  }

  /** A new storable item followed by items that all are known or stored: a rerun adds
      only that item's episode. */
  lemma NewItemThenRerun(run: Run, known: set<string>, ys: seq<Item>,
                         s: Tables, known2: set<string>, run2: Run, x: Item)
    requires CanProcess(run, known, ys) && CannotStop(run, known, ys) && Covered(run, known, s.episodes, ys)
    requires known <= known2
    requires run2.env == run.env && run2.rssLink == run.rssLink && run2.feedImage == run.feedImage
    requires Storable(run2, x) && ItemId(run2, x) !in known2
    ensures CanProcess(run2, known2, [x] + ys)
    ensures IngestItems(s, run2, known2, [x] + ys) == (InsertEpisode(s, NewEpisode(run2, x)), None)
  {
    var s1 := InsertEpisode(s, NewEpisode(run2, x));
    CoveredGrows(run, known, s.episodes, s1.episodes, ys);
    RerunItemsIsNoOp(run, known, ys, s1, known2, run2);
    assert ([x] + ys)[0] == x && ([x] + ys)[1..] == ys;
  }

  /**
   * New-episode detection: after a run without error, ingesting the feed again once it has
   * gained one item, at any position, whose id no stored episode carries adds exactly that
   * item's episode row, owned by the show, and ends without error; the shows are untouched.
   */
  lemma NewItemIsAddedOnRerun(t: Tables, env: Env, rssLink: string, feed: Feed, now: DateTime,
                              later: DateTime, xs: seq<Item>, ys: seq<Item>, x: Item)
    requires CanIngest(t, env, rssLink, feed, now)
    requires Ingest(t, env, rssLink, feed, now).1.None?
    requires feed.items == xs + ys
    requires Storable(Run(env, rssLink, feed.image, later), x)
    requires !HasEpisodeId(Ingest(t, env, rssLink, feed, now).0.episodes, ItemId(Run(env, rssLink, feed.image, later), x))
    ensures var s := Ingest(t, env, rssLink, feed, now).0;
      CanIngest(s, env, rssLink, feed.(items := xs + [x] + ys), later)
    ensures var s := Ingest(t, env, rssLink, feed, now).0;
      var run := Run(env, rssLink, feed.image, later);
      Ingest(s, env, rssLink, feed.(items := xs + [x] + ys), later) == (InsertEpisode(s, NewEpisode(run, x)), None)
    ensures var s := Ingest(t, env, rssLink, feed, now).0;
      var run := Run(env, rssLink, feed.image, later);
      var r := Ingest(s, env, rssLink, feed.(items := xs + [x] + ys), later).0;
      && r.pods == s.pods
      && r.episodes == s.episodes + [EpisodeToRow(NewEpisode(run, x), s.nextEpisodeRowid)]
      && r.episodes[|s.episodes|].podId == ShowId(env.sha1, rssLink)
  {
    var id := ShowId(env.sha1, rssLink);
    var t1 := if HasPodId(t.pods, id) then t else InsertPod(t, NewPod(env, rssLink, feed, now));
    var run := Run(env, rssLink, feed.image, now);
    var known := KnownIds(t1.episodes, id);
    assert known == KnownIds(t.episodes, id);
    assert Ingest(t, env, rssLink, feed, now) == IngestItems(t1, run, known, feed.items);
    var s := Ingest(t, env, rssLink, feed, now).0;
    var known2 := KnownIds(s.episodes, id);
    assert known <= known2;
    AbortsIff(t1, run, known, feed.items);
    SuccessStoresEveryItem(t1, run, known, feed.items);
    var run2 := Run(env, rssLink, feed.image, later);
    var xid := ItemId(run2, x);
    assert xid !in known2 by {
      forall row | row in s.episodes ensures row.id != xid {
        var k :| 0 <= k < |s.episodes| && s.episodes[k] == row;
      }
    }
    InsertedItemAddsItsEpisode(run, known, xs, ys, s, known2, run2, x);
    assert HasPodId(s.pods, id);
    var feed2 := feed.(items := xs + [x] + ys);
    assert Ingest(s, env, rssLink, feed2, later) == IngestItems(s, run2, known2, xs + [x] + ys);
  }

  /** A new item without enclosures stops the pass where it stands. */
  lemma NewEmptyItemStops(t: Tables, run: Run, known: set<string>, y: Item, ys: seq<Item>)
    requires ItemId(run, y) !in known && |y.enclosures| == 0 && WellShaped(y.published)
    ensures CanProcess(run, known, [y] + ys)
    ensures IngestItems(t, run, known, [y] + ys) == (t, Some(NoContent))
  {
    assert ([y] + ys)[0] == y;
  }

  /** A pass that reaches a new item without enclosures, after items that cannot stop it,
      keeps what those items stored and stops there. */
  lemma PassStopsAtFirstEmptyItem(t: Tables, run: Run, known: set<string>, xs: seq<Item>, y: Item, ys: seq<Item>)
    requires CanProcess(run, known, xs + [y] + ys)
    requires ItemId(run, y) !in known && |y.enclosures| == 0
    requires CannotStop(run, known, xs)
    ensures CanProcess(run, known, xs) && IngestItems(t, run, known, xs).1.None?
    ensures WellShaped(y.published)
    ensures IngestItems(t, run, known, xs + [y] + ys) == (IngestItems(t, run, known, xs).0, Some(NoContent))
  {
    assert xs + [y] + ys == xs + ([y] + ys);
    IngestItemsAppend(t, run, known, xs, [y] + ys);
    AbortsIff(t, run, known, xs);
    assert ([y] + ys)[0] == y;
    NewEmptyItemStops(IngestItems(t, run, known, xs).0, run, known, y, ys);
  }

  /** The rows a pass over `xs` adds carry ids of items of `xs`, so an id that was unknown
      and that no item of `xs` has stays unknown. */
  lemma UnknownIdStaysUnknown(t: Tables, run: Run, known: set<string>, xs: seq<Item>, showId: string, yid: string)
    requires CanProcess(run, known, xs)
    requires known == KnownIds(t.episodes, showId) && yid !in known
    requires forall i | 0 <= i < |xs| :: ItemId(run, xs[i]) != yid
    ensures yid !in KnownIds(IngestItems(t, run, known, xs).0.episodes, showId)
  {
    var rows := IngestItems(t, run, known, xs).0.episodes;
    AddedRowsComeFromNewItems(t, run, known, xs);
    forall row | row in rows && row.podId == showId ensures row.id != yid {
      var j :| 0 <= j < |rows| && rows[j] == row;
      if j < |t.episodes| {
        assert row == t.episodes[j];
        assert row in t.episodes;
      } else {
        assert FromNewItem(run, known, xs, rows[j]);
        var i :| 0 <= i < |xs| && ItemId(run, xs[i]) !in known && Storable(run, xs[i])
          && rows[j] == EpisodeToRow(NewEpisode(run, xs[i]), rows[j].rowid);
        assert row.id == ItemId(run, xs[i]);
      }
    }
  }

  /** A rerun over items that all are known or stored stops again at a new item without
      enclosures that follows them, and changes nothing. */
  lemma RerunStopsAgain(run: Run, known: set<string>, xs: seq<Item>, y: Item, ys: seq<Item>,
                        s: Tables, known2: set<string>, run2: Run)
    requires CanProcess(run, known, xs) && CannotStop(run, known, xs) && Covered(run, known, s.episodes, xs)
    requires known <= known2
    requires run2.env == run.env && run2.rssLink == run.rssLink && run2.feedImage == run.feedImage
    requires ItemId(run2, y) !in known2 && |y.enclosures| == 0 && WellShaped(y.published)
    ensures CanProcess(run2, known2, xs + [y] + ys)
    ensures IngestItems(s, run2, known2, xs + [y] + ys) == (s, Some(NoContent))
  {
    assert xs + [y] + ys == xs + ([y] + ys);
    RerunItemsIsNoOp(run, known, xs, s, known2, run2);
    NewEmptyItemStops(s, run2, known2, y, ys);
    CannotStopOnRerun(run, known, xs, known2, run2);
    NoOpPrefix(s, run2, known2, xs, [y] + ys);
  }

  /**
   * Re-ingestion after a "no content" stop: when the first new item without enclosures
   * shares its id with no earlier item, the first run stops there, and so does every rerun,
   * which changes nothing. (When an earlier item does share that id, the rerun skips the
   * stopping item and goes on: see `RetryAfterAbortAddsMore`.)
   */
  lemma AbortRepeatsOnRerun(t: Tables, env: Env, rssLink: string, feed: Feed, now: DateTime,
                            later: DateTime, xs: seq<Item>, y: Item, ys: seq<Item>)
    requires CanIngest(t, env, rssLink, feed, now)
    requires feed.items == xs + [y] + ys
    requires var run := Run(env, rssLink, feed.image, now);
      var known := KnownIds(t.episodes, ShowId(env.sha1, rssLink));
      && ItemId(run, y) !in known && |y.enclosures| == 0
      && (forall i | 0 <= i < |xs| :: ItemId(run, xs[i]) !in known ==> |xs[i].enclosures| > 0)
      && (forall i | 0 <= i < |xs| :: ItemId(run, xs[i]) != ItemId(run, y))
    ensures Ingest(t, env, rssLink, feed, now).1 == Some(NoContent)
    ensures CanIngest(Ingest(t, env, rssLink, feed, now).0, env, rssLink, feed, later)
    ensures Ingest(Ingest(t, env, rssLink, feed, now).0, env, rssLink, feed, later) ==
      (Ingest(t, env, rssLink, feed, now).0, Some(NoContent))
  {
    var id := ShowId(env.sha1, rssLink);
    var t1 := if HasPodId(t.pods, id) then t else InsertPod(t, NewPod(env, rssLink, feed, now));
    var run := Run(env, rssLink, feed.image, now);
    var known := KnownIds(t1.episodes, id);
    assert known == KnownIds(t.episodes, id);
    assert Ingest(t, env, rssLink, feed, now) == IngestItems(t1, run, known, feed.items);
    PassStopsAtFirstEmptyItem(t1, run, known, xs, y, ys);
    var s := IngestItems(t1, run, known, xs).0;
    assert Ingest(t, env, rssLink, feed, now) == (s, Some(NoContent));
    var known2 := KnownIds(s.episodes, id);
    assert known <= known2;
    UnknownIdStaysUnknown(t1, run, known, xs, id, ItemId(run, y));
    SuccessStoresEveryItem(t1, run, known, xs);
    var run2 := Run(env, rssLink, feed.image, later);
    assert ItemId(run2, y) == ItemId(run, y);
    RerunStopsAgain(run, known, xs, y, ys, s, known2, run2);
    assert HasPodId(s.pods, id);
    assert Ingest(s, env, rssLink, feed, later) == IngestItems(s, run2, known2, feed.items);
  }

  /** After a run that stopped with "no content", a retry can add episodes that the first run
      never reached: an item repeating an earlier title shares its id, so the retry skips it. */
  lemma RetryAfterAbortAddsMore(env: Env, rssLink: string, feed: Feed, now: DateTime, a: Item, b: Item)
    requires feed.image.Some? && feed.author.Some?
    requires WellShaped(a.published) && WellShaped(b.published)
    requires |a.enclosures| > 0 && |b.enclosures| > 0
    requires EpisodeId(env.sha1, rssLink, a.title) != EpisodeId(env.sha1, rssLink, b.title)
    requires feed.items == [a, a.(enclosures := []), b]
    ensures var empty := Tables([], [], 1, 1);
      && CanIngest(empty, env, rssLink, feed, now)
      && var first := Ingest(empty, env, rssLink, feed, now);
      && first.1 == Some(NoContent) && |first.0.episodes| == 1
      && CanIngest(first.0, env, rssLink, feed, now)
      && var second := Ingest(first.0, env, rssLink, feed, now);
      && second.1 == None && |second.0.episodes| == 2
  {
    var empty := Tables([], [], 1, 1);
    var id := ShowId(env.sha1, rssLink);
    var run := Run(env, rssLink, feed.image, now);
    var t1 := InsertPod(empty, NewPod(env, rssLink, feed, now));
    assert KnownIds(t1.episodes, id) == {};
    FirstPassStops(t1, run, a, b, feed.items);
    var ta := InsertEpisode(t1, NewEpisode(run, a));
    assert Ingest(empty, env, rssLink, feed, now) == (ta, Some(NoContent));
    assert KnownIds(ta.episodes, id) == {ItemId(run, a)} by {
      assert ta.episodes == [EpisodeToRow(NewEpisode(run, a), 1)];
    }
    assert HasPodId(ta.pods, id);
    SecondPassAddsB(ta, run, a, b, feed.items);
    assert Ingest(ta, env, rssLink, feed, now) == (InsertEpisode(ta, NewEpisode(run, b)), None);
    assert !HasEpisodeId(ta.episodes, ItemId(run, b)) by {
      assert ta.episodes[0].id == ItemId(run, a);
    }
  }

  /** The first pass stores `a`, then stops at its repeat without enclosures. */
  lemma FirstPassStops(t: Tables, run: Run, a: Item, b: Item, items: seq<Item>)
    requires Storable(run, a) && items == [a, a.(enclosures := []), b]
    ensures CanProcess(run, {}, items)
    ensures IngestItems(t, run, {}, items) == (InsertEpisode(t, NewEpisode(run, a)), Some(NoContent))
  {
    var a2 := a.(enclosures := []);
    assert items[1..] == [a2, b];
    assert CanProcess(run, {}, [a2, b]);
  }

  /** With `a` stored, the second pass skips `a` and its repeat, and stores `b`. */
  lemma SecondPassAddsB(t: Tables, run: Run, a: Item, b: Item, items: seq<Item>)
    requires Storable(run, b) && ItemId(run, a) != ItemId(run, b)
    requires items == [a, a.(enclosures := []), b]
    ensures CanProcess(run, {ItemId(run, a)}, items)
    ensures IngestItems(t, run, {ItemId(run, a)}, items) == (InsertEpisode(t, NewEpisode(run, b)), None)
  {
    var known := {ItemId(run, a)};
    var a2 := a.(enclosures := []);
    assert ItemId(run, a2) == ItemId(run, a);
    assert items[1..] == [a2, b] && [a2, b][1..] == [b] && [b][1..] == [];
    assert CanProcess(run, known, [b]);
    assert IngestItems(t, run, known, [b]) == (InsertEpisode(t, NewEpisode(run, b)), None);
  }
}
