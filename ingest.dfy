/**
 * Feed ingestion (`UpdateRss`): insert the show of a feed when it is absent, then add
 * every item whose episode id is not yet stored for that show. The parsed feed, the
 * digest function, the HTML sanitiser and the clock reading are inputs.
 */
module Ingestion {
  import opened Wrappers
  import opened Identity
  import opened Times
  import opened PubDate
  import opened Podcasts
  import opened Catalog

  datatype Enclosure = Enclosure(url: string, mimeType: string)
  datatype Image = Image(url: string, title: string)
  datatype Person = Person(name: string, email: string)

  /** A parsed feed item; `image` is absent when the item has none. */
  datatype Item = Item(title: string, description: string, image: Option<Image>, published: string,
                       enclosures: seq<Enclosure>)

  /** A parsed feed; `image` and `author` are absent when the feed has none. */
  datatype Feed = Feed(title: string, description: string, image: Option<Image>, author: Option<Person>,
                       categories: seq<string>, link: string, items: seq<Item>)

  /** The foreign code ingestion calls: the SHA-1 digest and the HTML sanitiser. */
  datatype Env = Env(sha1: string -> Digest, sanitize: string -> string)

  /** What one run of the item loop depends on besides the items. */
  datatype Run = Run(env: Env, rssLink: string, feedImage: Option<Image>, now: DateTime)

  const NoContent: string := "no content"

  /** The ids the snapshot `GetAllEpisodes(showId)` holds. */
  function KnownIds(episodes: seq<EpisodeRow>, showId: string): (ids: set<string>)
    ensures forall row | row in episodes && row.podId == showId :: row.id in ids
    ensures forall id | id in ids :: exists row :: row in episodes && row.podId == showId && row.id == id
  {
    set row | row in episodes && row.podId == showId :: row.id
  }

  function ItemId(run: Run, item: Item): string
  {
    EpisodeId(run.env.sha1, run.rssLink, item.title)
  }

  /** The show record written for an unseen feed. */
  function NewPod(env: Env, rssLink: string, feed: Feed, now: DateTime): (pod: Pod)
    requires feed.image.Some? && feed.author.Some?
    ensures pod.id == ShowId(env.sha1, rssLink) && pod.rss == rssLink && pod.added == now
    ensures pod.albumArt == feed.image.value.url && pod.creator == feed.author.value.name
    ensures pod.categories == feed.categories && pod.description == env.sanitize(feed.description)
    ensures pod.title == feed.title && pod.link == feed.link && pod.episodes == []
  {
    Pod(feed.title, env.sanitize(feed.description), feed.image.value.url, feed.author.value.name,
        feed.categories, rssLink, ShowId(env.sha1, rssLink), now, feed.link, [])
  }

  /** The publish time: the parsed date, or the clock reading when parsing fails. */
  function Published(item: Item, now: DateTime): (d: DateTime)
    requires WellShaped(item.published)
    ensures ParsePubDate(item.published).Ok? ==> d == ParsePubDate(item.published).value
    ensures ParsePubDate(item.published).Err? ==> d == now
  {
    match ParsePubDate(item.published)
    case Ok(d) => d
    case Err(_) => now
  }

  /** The thumbnail: the item's image, else the feed's. */
  function Thumbnail(item: Item, feedImage: Option<Image>): (url: string)
    requires item.image.Some? || feedImage.Some?
    ensures item.image.Some? ==> url == item.image.value.url
    ensures item.image.None? ==> url == feedImage.value.url
  {
    if item.image.None? then feedImage.value.url else item.image.value.url
  }

  /** An item can be turned into an episode without a nil dereference or an index panic. */
  predicate Storable(run: Run, item: Item)
  {
    WellShaped(item.published) && |item.enclosures| > 0 && (item.image.Some? || run.feedImage.Some?)
  }

  /** The episode record written for a new item. */
  function NewEpisode(run: Run, item: Item): (e: Episode)
    requires Storable(run, item)
    ensures e.id == ItemId(run, item) && e.podId == ShowId(run.env.sha1, run.rssLink)
    ensures e.media == item.enclosures[0].url && e.mediaType == item.enclosures[0].mimeType
    ensures e.thumbnail == Thumbnail(item, run.feedImage) && e.published == Published(item, run.now)
    ensures e.title == item.title && e.description == run.env.sanitize(item.description)
  {
    Episode(item.title, run.env.sanitize(item.description), item.enclosures[0].url,
            item.enclosures[0].mimeType, Thumbnail(item, run.feedImage), ItemId(run, item),
            Published(item, run.now), ShowId(run.env.sha1, run.rssLink))
  }

  /** The item loop runs without a panic: every new item it reaches has a well-shaped
      date, and, unless it stops the loop for lack of enclosures, a thumbnail source. */
  predicate CanProcess(run: Run, known: set<string>, items: seq<Item>)
    decreases |items|
  {
    if items == [] then true
    else if ItemId(run, items[0]) in known then CanProcess(run, known, items[1..])
    else if !WellShaped(items[0].published) then false
    else |items[0].enclosures| == 0 || (Storable(run, items[0]) && CanProcess(run, known, items[1..]))
  }

  /** The item loop: skip known ids, stop with "no content" at the first new item without
      enclosures, otherwise insert the item's episode (a duplicate key leaves the table as is). */
  function IngestItems(t: Tables, run: Run, known: set<string>, items: seq<Item>): (r: (Tables, Option<string>))
    requires CanProcess(run, known, items)
    ensures r.0.pods == t.pods && r.0.nextPodRowid == t.nextPodRowid
    ensures t.episodes <= r.0.episodes
    ensures r.1.None? || r.1 == Some(NoContent)
    decreases |items|
  {
    if items == [] then (t, None)
    else if ItemId(run, items[0]) in known then IngestItems(t, run, known, items[1..])
    else if |items[0].enclosures| == 0 then (t, Some(NoContent))
    else IngestItems(InsertEpisode(t, NewEpisode(run, items[0])), run, known, items[1..])
  }

  /** A run of `UpdateRss` can finish: an unseen show needs the feed image and author,
      and the item loop must not panic. */
  predicate CanIngest(t: Tables, env: Env, rssLink: string, feed: Feed, now: DateTime)
  {
    var id := ShowId(env.sha1, rssLink);
    (!HasPodId(t.pods, id) ==> feed.image.Some? && feed.author.Some?)
    && CanProcess(Run(env, rssLink, feed.image, now), KnownIds(t.episodes, id), feed.items)
  }

  /** The whole of `UpdateRss` on the tables: the show is inserted only when unseen, the
      stored episodes are read once, then the items are processed. */
  function Ingest(t: Tables, env: Env, rssLink: string, feed: Feed, now: DateTime): (r: (Tables, Option<string>))
    requires CanIngest(t, env, rssLink, feed, now)
    ensures HasPodId(r.0.pods, ShowId(env.sha1, rssLink))
    ensures HasPodId(t.pods, ShowId(env.sha1, rssLink)) ==> r.0.pods == t.pods
    ensures !HasPodId(t.pods, ShowId(env.sha1, rssLink)) ==>
      r.0.pods == t.pods + [PodToRow(NewPod(env, rssLink, feed, now), t.nextPodRowid)]
    ensures t.episodes <= r.0.episodes
  {
    var id := ShowId(env.sha1, rssLink);
    var t1 := if HasPodId(t.pods, id) then t else InsertPod(t, NewPod(env, rssLink, feed, now));
    assert KnownIds(t1.episodes, id) == KnownIds(t.episodes, id);
    IngestItems(t1, Run(env, rssLink, feed.image, now), KnownIds(t1.episodes, id), feed.items)
  }

  /** The ids of a list of episode records. */
  function IdsOf(snapshot: seq<Episode>): set<string>
  {
    set k | 0 <= k < |snapshot| :: snapshot[k].id
  }

  /** The snapshot read by `GetAllEpisodes` holds exactly the ids `KnownIds` names. */
  lemma SnapshotHoldsKnownIds(episodes: seq<EpisodeRow>, showId: string, snapshot: seq<Episode>)
    requires forall e :: e in snapshot <==>
      exists row :: row in episodes && row.podId == showId && e == RowToEpisode(row)
    ensures IdsOf(snapshot) == KnownIds(episodes, showId)
  {
    forall eid | eid in KnownIds(episodes, showId) ensures eid in IdsOf(snapshot) {
      var row :| row in episodes && row.podId == showId && row.id == eid;
      assert RowToEpisode(row) in snapshot;
      var k :| 0 <= k < |snapshot| && snapshot[k] == RowToEpisode(row);
      assert snapshot[k].id == eid;
    }
    forall eid | eid in IdsOf(snapshot) ensures eid in KnownIds(episodes, showId) {
      var k :| 0 <= k < |snapshot| && snapshot[k].id == eid;
      assert snapshot[k] in snapshot;
      var row :| row in episodes && row.podId == showId && snapshot[k] == RowToEpisode(row);
      assert row.id == eid;
    }
  }

  /** One pass of the item loop of `UpdateRss`: the dedup scan over the snapshot, the date
      fallback, the enclosure abort, the thumbnail choice and the insert. */
  method ProcessItem(store: Store, run: Run, snapshot: seq<Episode>, ghost known: set<string>, item: Item)
    returns (abort: bool)
    requires store.Valid()
    requires known == IdsOf(snapshot)
    requires ItemId(run, item) !in known ==> WellShaped(item.published)
    requires ItemId(run, item) !in known && |item.enclosures| > 0 ==> Storable(run, item)
    modifies store
    ensures store.Valid()
    ensures abort <==> ItemId(run, item) !in known && |item.enclosures| == 0
    ensures abort || ItemId(run, item) in known ==> store.State() == old(store.State())
    ensures !abort && ItemId(run, item) !in known ==>
      store.State() == InsertEpisode(old(store.State()), NewEpisode(run, item))
  {
    var id := Hash(run.env.sha1, run.rssLink);
    var eid := Hash(run.env.sha1, run.rssLink + item.title);
    var stop := false;
    for j := 0 to |snapshot|
      invariant stop <==> exists k | 0 <= k < j :: snapshot[k].id == eid
    {
      if eid == snapshot[j].id {
        stop := true;
      }
    }
    assert stop <==> eid in known;
    if stop {
      return false;
    }

    var parsed := ParsePubDate(item.published);
    var pubDate := run.now;
    if parsed.Ok? {
      pubDate := parsed.value;
    }

    if |item.enclosures| == 0 {
      return true;
    }

    var image: string;
    if item.image.None? {
      image := run.feedImage.value.url;
    } else {
      image := item.image.value.url;
    }

    var episode := Episode(item.title, run.env.sanitize(item.description), item.enclosures[0].url,
                           item.enclosures[0].mimeType, image, eid, pubDate, id);
    assert episode == NewEpisode(run, item);
    var _ := store.AddEpisode(episode);
    return false;
  }

  /** The item loop of `UpdateRss`, proved against `IngestItems`. */
  method ProcessItems(store: Store, run: Run, snapshot: seq<Episode>, ghost known: set<string>, items: seq<Item>)
    returns (err: Option<string>)
    requires store.Valid()
    requires known == IdsOf(snapshot)
    requires CanProcess(run, known, items)
    modifies store
    ensures store.Valid()
    ensures (store.State(), err) == IngestItems(old(store.State()), run, known, items)
  {
    for i := 0 to |items|
      invariant store.Valid()
      invariant CanProcess(run, known, items[i..])
      invariant IngestItems(old(store.State()), run, known, items) == IngestItems(store.State(), run, known, items[i..])
    {
      assert items[i..][1..] == items[i + 1..];
      var abort := ProcessItem(store, run, snapshot, known, items[i]);
      if abort {
        return Some(NoContent);
      }
    }
    return None;
  }

  /** `UpdateRss`, proved against `Ingest`. Insert errors are ignored, as in the source. */
  method UpdateRss(store: Store, env: Env, rssLink: string, feed: Feed, now: DateTime) returns (err: Option<string>)
    requires store.Valid()
    requires CanIngest(store.State(), env, rssLink, feed, now)
    modifies store
    ensures store.Valid()
    ensures (store.State(), err) == Ingest(old(store.State()), env, rssLink, feed, now)
  {
    var id := Hash(env.sha1, rssLink);
    var seen := store.PodExists(id);
    if !seen {
      var pod := Pod(feed.title, env.sanitize(feed.description), feed.image.value.url, feed.author.value.name,
                     feed.categories, rssLink, id, now, feed.link, []);
      assert pod == NewPod(env, rssLink, feed, now);
      var _ := store.AddPod(pod);
    }

    var episodes := store.GetAllEpisodes(id);
    assert KnownIds(store.episodes, id) == KnownIds(old(store.State()).episodes, id);
    SnapshotHoldsKnownIds(store.episodes, id, episodes);
    err := ProcessItems(store, Run(env, rssLink, feed.image, now), episodes, KnownIds(store.episodes, id), feed.items);
  }
}
