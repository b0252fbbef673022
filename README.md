# yarr feed ingestion and catalog store, in Dafny

This project models the two cooperating pieces at the heart of the yarr podcast
aggregator:

- **Feed ingestion** (`rss.go`). `Hash` derives the 32-character identifiers.
  `parsePubDate` hand-parses an RSS `pubDate` in the date-time format of section 5 of
  RFC 822. `UpdateRss` inserts the show of a feed when no show has its id. It then adds every feed item whose
  episode id is not yet stored for that show. It falls back to the clock reading for a
  bad date, stops with "no content" at a new item without enclosures, and picks the
  thumbnail from the item image or else the feed image.
- **Catalog store** (`db.go`). This is the `podcasts` and `episodes` tables with their
  text primary keys. Each table has an FTS5 shadow table that triggers keep in sync. The
  store offers primary-key-checked inserts, a membership scan, filtered reads, the
  latest-shows query and the two full-text searches. The category list is stored joined
  with commas and read back with a split.

Layout, one module per file:

- `wrappers.dfy`: `Option` and `Result`.
- `seqs.dfy`: filtering a sequence; filtering keeps keys distinct.
- `strconv.dfy`: Go's `strconv.Atoi` on a 64-bit platform. `Itoa` is its reference inverse.
- `gostrings.dfy`: Go's `strings.Split` and `strings.Join` on a one-character separator.
- `identity.dfy`: `%x` hex encoding, `Hash`, the show id and the episode id.
- `times.dfy`: instants as the field tuple given to `time.Date`, ordered field by field.
- `podcasts.dfy`: the `Pod` and `Episode` records of `main.go`.
- `pubdate.dfy`: `parsePubDate`.
- `fts.dfy`: an FTS shadow as a map from rowid to indexed text, and the three triggers.
- `catalog.dfy`: the rows and the pure table operations. It also holds the `Store` class,
  whose fields are the two tables, the two shadows and the two rowid counters. Its
  invariant `Valid()` says that primary keys are unique, that rowids increase, and that
  each shadow equals the projection (rowid, title, description) of its base table.
- `ingest.dfy`: the parsed feed. It has the specification functions `IngestItems` and
  `Ingest`, and the imperative `UpdateRss`, which is proved against `Ingest`.
- `ingest_proofs.dfy`: properties of ingestion. These cover when a run stops, what a run
  adds, how runs compose, re-ingestion and retry after a stop.

Foreign code is passed in as values. SHA-1 is a function from strings to 20 bytes. The
HTML sanitiser is a function on strings. FTS5 `match` is a predicate on the query and the
indexed text. `time.Now()` is a `now` parameter. The parsed feed is an input value.

## Model

| member | source | states |
|---|---|---|
| Identity.Hash | rss.go:16-22 | The identifier is exactly 32 lowercase hex characters: the `%x` rendering of the first 16 of the 20 digest bytes. |
| Identity.HashCollisionIff | rss.go:16-22 | Two inputs get the same identifier exactly when their digests agree on the first 16 bytes. |
| Identity.HexDecodeEncode | rss.go:21 | The `%x` rendering is injective: decoding it gives the bytes back. |
| Identity.HexEncodeAppend | rss.go:21 | `%x` renders a byte string piecewise, so a prefix of the bytes gives a prefix of the text. |
| Identity.ShowId | rss.go:83 | A show's id is 32 characters: the hex rendering of the first 16 digest bytes of its feed URL. |
| Identity.EpisodeId | rss.go:111 | An episode's id is 32 characters: the hex rendering of the first 16 digest bytes of the feed URL followed directly by the title. |
| Identity.EpisodeIdOfConcatenation | rss.go:111 | Episode ids depend only on link + title, with no separator, so different pairs with the same concatenation share an id. |
| Identity.EmptyTitleHasShowId | rss.go:83-111 | An episode with an empty title gets the id of its show. |
| Strconv.Atoi | rss.go:65 | A result comes only from an optional sign followed by one or more digits, and is the signed value of those digits. It lies in the signed 64-bit range and is negative only after a '-'. An error carries the rejected input. |
| Strconv.AtoiItoa | rss.go:65 | Atoi reads back every 64-bit integer that Itoa writes. |
| Strconv.AtoiRejects | rss.go:65 | The empty string, a lone sign, and any non-digit other than a leading sign make Atoi fail. |
| Strconv.AtoiRange | rss.go:65 | A well-formed number outside the signed 64-bit range, on either side, makes Atoi fail. |
| Strconv.AtoiAccepts | rss.go:65 | Every well-formed number inside the signed 64-bit range, with or without a sign, is read as its signed value. |
| Strconv.DigitsValueLeadingZero | rss.go:65 | A leading zero does not change the value of a run of digits. |
| Strconv.AtoiLeadingZero | rss.go:65 | A zero-padded field such as "09" reads as the number without the padding. |
| Strconv.AtoiPlusSign | rss.go:65 | A leading '+' is accepted and gives the value of the digits after it. |
| Strconv.DigitsValueOfDigits | rss.go:65 | The decimal rendering of n has value n. |
| GoStrings.Join | db.go:281 | `strings.Join` writes the pieces with one separator between neighbours (its properties are stated by `JoinCons`, `SplitJoin` and `Split`). |
| GoStrings.Split | db.go:228 | `strings.Split` gives at least one piece, no piece holds the separator, and joining the pieces gives the input back. |
| GoStrings.SplitJoin | db.go:281 | Splitting a join gives back any non-empty list whose elements are free of the separator. |
| GoStrings.SplitSeparatorFree | db.go:228 | A separator-free prefix joins onto the first piece of the split. |
| GoStrings.SplitLeadingSeparator | db.go:228 | A leading separator opens an empty first piece. |
| GoStrings.EmptyListReadsBackAsOneEmptyPiece | db.go:281 | An empty list is written as "" and reads back as [""]. |
| GoStrings.SplitInjective | db.go:228 | Two strings with the same pieces are equal. |
| GoStrings.JoinCons | db.go:281 | Joining a list with a head puts one separator between the head and the join of the rest. |
| Times.NotAfterTotal | db.go:169 | The order on instants is total. |
| Times.NotAfterTransitive | db.go:169 | The order on instants is transitive. |
| Times.NotAfterAntisymmetric | db.go:169 | The order on instants is antisymmetric. |
| Catalog.LatestFirstAddedIsDetermined | db.go:169 | Any two latest-first orderings of the same rows give the same `added` value at every position; only the order among ties is left open. |
| Catalog.HeadIsLatest | db.go:169 | The head of a latest-first list is no earlier than any of its rows. |
| Catalog.TiedPrefix | db.go:169 | In a latest-first list, every row before one that is as late as the whole list ties with it. |
| Catalog.WithoutKeepsLatestFirst | db.go:169 | Dropping a row keeps a list latest first. |
| PubDate.MonthNumber | rss.go:27-51 | The month lookup gives a number from 0 to 12. |
| PubDate.WellShaped | rss.go:50-62 | The date has at least five space-separated fields and its fifth field at least three colon-separated parts: otherwise the source panics on an index. |
| PubDate.NumericFields | rss.go:50-62 | The five fields converted are the fourth token (year), the second (day), and the first three colon-separated parts of the fifth (hour, minute, second). |
| PubDate.MonthNumberIff | rss.go:27-51 | The lookup gives k exactly for the k-th abbreviation and 0 for any other token. |
| PubDate.ParsePubDate | rss.go:50-72 | The parse fails exactly when one of the year, day, hour, minute or second fields fails Atoi, and the error is the Atoi error of one failing field (which one is left open, as Go's map order leaves it). Otherwise it gives those numbers, the looked-up month, nanosecond 0 and UTC. |
| PubDate.FieldsOfWrittenDate | rss.go:50-62 | For a date written as weekday, day, month, year, h:m:s and zone, the parser reads exactly the day, month, year and time tokens. |
| PubDate.ParsesWrittenDate | rss.go:50-72 | Such a date, with numeric tokens that convert, parses to those numbers whatever its weekday and zone are. |
| PubDate.ParsesCommentExample | rss.go:25-72 | "Wed, 15 Sep 2021 00:00:00 -0400" parses to 2021-09-15 00:00:00 UTC. |
| PubDate.UnknownMonthGivesZero | rss.go:51 | An unknown month token is not an error: the parse succeeds with month 0. |
| Seqs.FilterKeepsUnique | db.go:90 | Filtering a table keeps its keys distinct. |
| Fts.MirrorContents | db.go:28-29 | With distinct rowids, the shadow holds exactly the rows' rowids, each with its row's text. |
| Fts.MirrorCharacterized | db.go:28-29 | A map that holds exactly the rows' rowids, each with its row's text, is the shadow. |
| Fts.FtsInsert | db.go:30-32 | Inserting into the shadow adds the rowid with its text and leaves every other entry as it was. |
| Fts.FtsDelete | db.go:33-36 | The 'delete' command given the indexed text removes exactly that rowid; it never adds or changes an entry. |
| Fts.InsertTriggerMirrors | db.go:30-32 | The insert trigger turns the shadow of a table into the shadow of the table with the new row. |
| Fts.DeleteTriggerMirrors | db.go:33-36 | The delete trigger turns the shadow into the shadow of the table without the deleted row. |
| Fts.UpdateTriggerMirrors | db.go:37-41 | The update trigger (retract the old entry, insert the new one) turns the shadow into the shadow of the updated table, even when the rowid changes. |
| Fts.RemoveAtKeepsUnique | db.go:33-36 | Deleting a row keeps the rowids distinct. |
| Catalog.PodToRow | db.go:276-284 | The stored row holds each field of the show in its column, and the categories joined with commas. |
| Catalog.RowToPod | db.go:224-239 | The read record holds each column in its field, the categories split at commas, and no episodes. |
| Catalog.EpisodeToRow | db.go:300-306 | The stored row holds each field of the episode in its column. |
| Catalog.RowToEpisode | db.go:140-155 | The read record holds each column in its field. |
| Catalog.EpisodeRowRoundTrip | db.go:300-306 | An episode reads back exactly as it was written. |
| Catalog.PodRowRoundTrip | db.go:281 | A show reads back as written when its category list is non-empty and no category holds a comma. |
| Catalog.EmptyCategoriesReadBack | db.go:228 | An empty category list reads back as [""]. |
| Catalog.CommaSplitsCategory | db.go:228 | A category holding a comma reads back as two categories. |
| Catalog.IncreasingRowidsAreUnique | db.go:26-29 | Increasing rowids are distinct, as the shadow keys must be. |
| Catalog.InsertPod | db.go:276-287 | The id is present afterwards. A taken id leaves both tables unchanged. Otherwise exactly the row `strings.Join`-encoded under the next rowid is appended, and the episodes are untouched. |
| Catalog.InsertEpisode | db.go:300-309 | The same primary-key rule for `episodes`, with the shows untouched. |
| Catalog.InsertPodKeepsValid | db.go:26 | A show insert keeps primary keys unique and rowids increasing. |
| Catalog.InsertEpisodeKeepsValid | db.go:27 | An episode insert keeps primary keys unique and rowids increasing. |
| Catalog.MatchingRowids | db.go:254 | The full-text subquery yields exactly the shadow rowids whose text matches the query. |
| Catalog.Limit | db.go:169 | `limit ?` keeps at most `num` rows (all rows when `num` is negative) and no more rows than there are. |
| Catalog.IndexOfLatest | db.go:169 | The chosen row was added no earlier than any other row. |
| Catalog.Without | db.go:169 | Dropping one row leaves the multiset of the others. |
| Catalog.SortByAddedDesc | db.go:169 | `order by added desc` returns a permutation of the rows. |
| Catalog.SortedRowsComeFromInput | db.go:169 | Every sorted row is an input row. |
| Catalog.ConsLatestFirst | db.go:169 | A row no earlier than every row of a latest-first list can head that list. |
| Catalog.SortByAddedDescIsLatestFirst | db.go:169 | The sorted rows are latest first. |
| Catalog.TopRows | db.go:169 | The query keeps `Limit(num, n)` rows, a prefix of the rows sorted latest first. |
| Catalog.TopRowsAreLatest | db.go:168-183 | The query returns `Limit(num, n)` rows of the table, latest first. Every row left out was added no later than every row returned. |
| Catalog.TopRowsAreTableRows | db.go:169 | The query returns table rows, none more often than the table holds it. |
| Catalog.WithoutKeepsUniqueIds | db.go:169 | Dropping a row keeps ids unique, and no remaining row has the dropped row's id. |
| Catalog.ConsUniqueIds | db.go:169 | A row whose id is absent from a uniquely keyed list can head it. |
| Catalog.SortKeepsUniqueIds | db.go:169 | `order by added desc` on a uniquely keyed table keeps ids unique. |
| Catalog.TopRowsHaveUniqueIds | db.go:168-183 | On a uniquely keyed table the query returns each show at most once. |
| Catalog.LeftOutRowIsNotLater | db.go:169 | In a latest-first list, a row beyond the first n is no later than any of them. |
| Catalog.GetEpisodes | db.go:127-166 | The scan turns each row into one record, in order. |
| Catalog.GetPods | db.go:207-251 | The scan turns each row into one record, in order, with categories split at commas. |
| Catalog.PodsOfTopRows | db.go:168-183 | The ordering, distinct-id, membership and left-out facts about the top rows carry over to the records built from them. |
| Catalog.PodsOfTopRowsOfTable | db.go:168-183 | For a table with distinct ids, the records built from the top rows are `Limit(num, n)` shows of the table, latest first and distinct. No show left out was added after a returned one. |
| Catalog.PodsComeFromTable | db.go:207-251 | Every record built from table rows is the record of a table row. |
| Catalog.PodsLeftOutAreNotLater | db.go:168-183 | A table row whose id no returned record carries is no later than any returned record. |
| Catalog.EpisodeScanMembership | db.go:127-166 | A record is in the scan result exactly when it is built from some scanned row. |
| Catalog.PodScanMembership | db.go:207-251 | A record is in the scan result exactly when it is built from some scanned row. |
| Catalog.Store.constructor | db.go:14-64 | `ResetDb` gives empty tables and empty shadows that satisfy the store invariant. |
| Catalog.Store.AddPod | db.go:270-292 | It succeeds exactly when no show has the id. The new state is `InsertPod` of the old one, and the insert trigger keeps the shadow equal to the table's projection. |
| Catalog.Store.AddEpisode | db.go:294-314 | It succeeds exactly when no episode has the id. The new state is `InsertEpisode` of the old one, and the shadow stays in sync. |
| Catalog.Store.PodExists | db.go:316-341 | The scan with early return answers true exactly when some show row has the id. |
| Catalog.Store.GetAllEpisodes | db.go:89-104 | It returns exactly the episodes whose `podId` is the given show, each id once, in no promised order. |
| Catalog.Store.GetEpisode | db.go:106-125 | It returns the record of the episode row with the given primary key, which must exist. |
| Catalog.Store.GetPod | db.go:185-205 | It returns the record of the show row with the given primary key, which must exist. |
| Catalog.Store.TopPods | db.go:168-183 | It returns `Limit(num, n)` shows of the table, each at most once, in non-increasing `added` order. No show left out was added after a returned one. |
| Catalog.Store.SearchPods | db.go:253-268 | It returns exactly the shows whose indexed text matches the query, each once, with no approval filter. |
| Catalog.Store.SearchEpisodes | db.go:72-87 | It returns exactly the episodes of the given show whose indexed text matches the query, each once. |
| Ingestion.KnownIds | rss.go:113-117 | A stored episode id of the show is known, and every known id is one. |
| Ingestion.NewPod | rss.go:89-100 | The new show has id `Hash(rssLink)`, the feed's title, link, image URL, author name and categories, the sanitised description, the RSS URL, no episodes, and `added` equal to the clock reading. |
| Ingestion.Published | rss.go:123-126 | The parsed date when parsing succeeds, else the clock reading. |
| Ingestion.Thumbnail | rss.go:132-137 | The item image when present, else the feed image. |
| Ingestion.NewEpisode | rss.go:139-148 | The episode has id `Hash(rssLink + title)`, the show id as `PodId`, media and media type from the first enclosure, the thumbnail and date fallbacks above, and the sanitised description. |
| Ingestion.IngestItems | rss.go:110-151 | The item loop leaves the shows alone and only appends episodes. It ends without error or with "no content". A failed insert leaves the tables as they were and the loop goes on; the lock the source then leaves held is not modelled (see Left out). |
| Ingestion.Ingest | rss.go:83-103 | After a run the show id is stored. An existing show is left as it is, and an unseen one is appended as `NewPod`. Episodes are only appended. |
| Ingestion.SnapshotHoldsKnownIds | rss.go:105 | The episodes read once by `GetAllEpisodes` hold exactly the known ids. |
| Ingestion.ProcessItem | rss.go:110-151 | One item: a known id changes nothing, a new item without enclosures aborts, and any other item inserts `NewEpisode`. |
| Ingestion.CanProcess | rss.go:110-151 | The item loop runs without a panic: every new item it reaches has a well-shaped date and, unless it stops the loop, an image source. |
| Ingestion.CanIngest | rss.go:83-151 | A run finishes without a panic: an unseen show needs the feed image and author, and the item loop can run. |
| Ingestion.ProcessItems | rss.go:110-153 | The item loop ends in the state and result of `IngestItems`, and keeps the store invariant. |
| Ingestion.UpdateRss | rss.go:75-154 | The whole run ends in the state and result of `Ingest`, and keeps the store invariant. |
| IngestProofs.IngestItemsStep | rss.go:110-151 | One turn of the loop: skip a known id, stop on a new item without enclosures, otherwise insert and go on. |
| IngestProofs.IngestItemsKeepsValid | rss.go:110-151 | The item loop keeps primary keys unique and rowids increasing. |
| IngestProofs.IngestKeepsValid | rss.go:75-154 | A whole run keeps the tables valid. |
| IngestProofs.KnownItemIsSkipped | rss.go:113-121 | A known item is skipped before its date or enclosures are looked at. |
| IngestProofs.AbortsIff | rss.go:128-130 | A run returns "no content" exactly when some item with an unknown id has no enclosures. |
| IngestProofs.ShiftExists | rss.go:110-130 | A new empty item other than the first is one of the tail. |
| IngestProofs.AllKnownAddsNothing | rss.go:110-121 | A feed whose items are all known adds nothing and succeeds. |
| IngestProofs.IngestItemsAppend | rss.go:110-151 | The loop over xs + ys is the loop over xs and then, unless that stopped, over ys. |
| IngestProofs.CanProcessAppend | rss.go:110-151 | Joining two processable lists stays processable when the first cannot stop. |
| IngestProofs.AppendedItemAddsItsEpisode | rss.go:139-150 | One error-free pass over the items plus a new item ends in the tables of the pass over the items with that item's episode inserted. The insert changes nothing when another show's episode already holds the id; that the source then leaves the database locked is not modelled (see Left out). |
| IngestProofs.FromNewItemOfTail | rss.go:110-151 | A row made from an item of the tail is made from an item of the list. |
| IngestProofs.AddedRowsComeFromNewItems | rss.go:110-151 | Every row a run adds is the episode of an unknown item that has enclosures. |
| IngestProofs.CoveredCons | rss.go:110-121 | A list is covered when its head is known or stored and its tail is covered. |
| IngestProofs.SuccessStoresEveryItem | rss.go:110-153 | After a run without error every item is known or has its id stored. |
| IngestProofs.StoredIdStaysStored | rss.go:150 | Rows are only appended, so a stored id stays stored. |
| IngestProofs.RerunItemsIsNoOp | rss.go:110-121 | A second pass over covered items changes nothing and succeeds, whatever the clock reads. |
| IngestProofs.NewItemIsAddedOnRerun | rss.go:110-151 | After a run without error, ingesting the feed again with one more item, at any position, whose id is not stored adds exactly that item's episode row, owned by the show, and ends without error. The shows are untouched. |
| IngestProofs.InsertedItemAddsItsEpisode | rss.go:110-151 | A pass over handled items with one new storable item placed anywhere among them stores only that item's episode and succeeds. |
| IngestProofs.NewItemThenRerun | rss.go:113-150 | A new storable item followed by handled items: the pass adds only its episode. |
| IngestProofs.HandledHalves | rss.go:110-151 | A list that a pass can process, that cannot stop and whose items are all stored splits into two such lists. |
| IngestProofs.CoveredGrows | rss.go:150 | Items whose ids are stored stay so when rows are appended. |
| IngestProofs.IngestIdempotent | rss.go:84-121 | Re-ingesting a feed after a run without error adds no show and no episode and ends without error, even with a later clock reading. A run that stopped is covered by `AbortRepeatsOnRerun` and `RetryAfterAbortAddsMore`. |
| IngestProofs.AbortRepeatsOnRerun | rss.go:110-151 | When the first new item without enclosures shares its id with no earlier item, the run stops there with "no content", and a rerun, even with a later clock reading, stops there again and changes nothing. |
| IngestProofs.RerunStopsAgain | rss.go:110-130 | A pass over handled items followed by a new item without enclosures stops there and changes nothing. |
| IngestProofs.NewEmptyItemStops | rss.go:128-130 | A new item without enclosures stops the pass where it stands. |
| IngestProofs.PassStopsAtFirstEmptyItem | rss.go:110-130 | A pass stops at the first new item without enclosures and keeps what the items before it stored. |
| IngestProofs.UnknownIdStaysUnknown | rss.go:110-151 | A pass adds only rows carrying ids of its own items, so an unknown id that none of them has stays unknown. |
| IngestProofs.RetryAfterAbortAddsMore | rss.go:110-151 | Episodes stored before a "no content" stop stay stored. A retry skips them and can add episodes the first run never reached. |
| IngestProofs.FirstPassStops | rss.go:128-150 | The first pass of that example stores one episode and then stops. |
| IngestProofs.SecondPassAddsB | rss.go:113-150 | The retry skips the stored item and its repeat and stores the third item. |

## Left out

- Fetching the feed with gofeed and its 8-second timeout (rss.go:76-79) is left out: the parsed feed is an input. The discarded fetch error is therefore not modelled. A nil feed would panic, so a feed is always present.
- SHA-1, the bluemonday sanitiser and FTS5 tokenisation, `match` syntax and `rank` are foreign libraries. They are function parameters with no properties assumed.
- Identity.Hash: SHA-1 is uninterpreted, so only its 20-byte length is used.
- The clock is one `now` parameter per run. The source calls `time.Now()` separately for the show (rss.go:98) and for each bad date (rss.go:125), so those readings can differ there.
- `time.Date` normalisation of out-of-range fields is not modelled. An instant is its field tuple, and an unknown month stays 0 instead of rolling over.
- Catalog.TopRows: `added` is compared field by field. It assumes SQLite's stored datetime text sorts chronologically, which holds only for one time zone. Among rows with equal `added` the model fixes one order, while SQLite promises none. `Catalog.LatestFirstAddedIsDetermined` shows that any other latest-first order has the same `added` value at every position, so only the order among ties can differ.
- Catalog.Store.SearchPods, Catalog.Store.SearchEpisodes: the result is stated as a set because the `order by rank` inside the `in` subquery does not order the result. A malformed query, which FTS5 rejects with an error, is not modelled.
- Prepare, begin, query, scan, `rows.Err` and commit failures are not modelled. Only the primary-key failure of an insert is.
- Ingestion.IngestItems, Catalog.Store.AddPod, Catalog.Store.AddEpisode: the transaction left open after a failed insert (db.go:285-287, db.go:307-309) is not modelled. In the source that transaction is never committed or rolled back, so its connection keeps the write lock the failed INSERT took. Every later insert, from any connection, then fails with "database is locked" until the process restarts, and `UpdateRss` ignores those errors. The model instead treats each insert on its own: a failed insert leaves the tables unchanged and later inserts still succeed. For example, for items [A, A′, B] where A′ repeats A's title, the model stores A and B but the source stores only A. This affects `Ingestion.IngestItems`, `Ingestion.Ingest`, `Ingestion.UpdateRss` and the lemmas about several inserts in a row.
- The DDL sequencing of `ResetDb` (drop, create, error returns) is left out. The constructor gives its result, empty tables under the invariant.
- Fts.FtsDelete: FTS5 promises nothing for a 'delete' given text other than the indexed one (the index may be corrupted). That case is not modelled; the model leaves the index unchanged, and no lemma reaches it.
- No code path in the core issues UPDATE or DELETE, so the update and delete triggers are modelled as lemmas on the shadow map and not as store methods.
- Catalog.Store.GetEpisode, Catalog.Store.GetPod: the source indexes `[0]` without a check and panics on a missing row. Existence is a precondition instead.
- Ingestion.Ingest: the nil dereferences of `feed.Image` and `feed.Author` for an unseen show (rss.go:93-94), and of `feed.Image` for an item without an image (rss.go:134), are preconditions (`CanIngest`, `Storable`). So is the index panic of `parsePubDate` on a date with fewer than five fields or three time parts (`WellShaped`).
- PubDate.ParsePubDate: Go visits the five fields in random map order, so which failing field's error is returned is not determined. The model reports the first failing one in the order year, day, hour, minute, second.
- Strconv.Atoi: Go distinguishes a syntax error from a range error. The model returns one error kind carrying the input, because the only caller tests `err != nil`. `int` is taken to be 64 bits wide.
- The debug print of each episode (rss.go:149) is I/O and is left out.
- Show approval, show deletion and the hourly scheduler are not part of this model. The schema has no approval column.
