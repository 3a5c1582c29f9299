/** The feed-update job (quickfeed/jobs.py). For every feed, in table order,
    the entries fetched from its URL are turned into articles, skipping any
    entry whose key (its id, or else its link) the feed already has; then the
    feed is stamped as updated. There is no error handling: the first entry
    that raises ends the whole run. Fetching is not modelled: the entries of
    each feed URL are an input, and the clock is the parameter `now`. */
module Jobs {
  import opened Collections
  import opened Models
  import opened Api

  /** A parsed feed entry. Each field is None when the entry lacks it;
      reading a missing field raises. */
  datatype Entry = Entry(
    id: Option<string>,
    link: Option<string>,
    title: Option<string>,
    description: Option<string>,
    published: Option<Timestamp>)

  /** The de-duplication key: the entry's id, or its link when it has no id
      (None when it has neither, where reading the link raises). */
  function DedupKey(e: Entry): (k: Option<string>)
    ensures k.Some? <==> e.id.Some? || e.link.Some?
    ensures e.id.Some? ==> k == e.id
  {
    if e.id.Some? then e.id else e.link
  }

  /** The entries fetched from a URL; a URL that yields nothing has none. */
  function Fetched(fetched: map<string, seq<Entry>>, url: string): seq<Entry> {
    if url in fetched then fetched[url] else []
  }

  /** Whether an entry has every field a new article is built from. */
  predicate Complete(e: Entry) {
    e.published.Some? && e.title.Some? && e.link.Some?
  }

  /** The article `add_article` creates from an entry; a missing description
      becomes the empty string. */
  function NewArticle(id: int, feedId: int, key: string, e: Entry, now: Timestamp): Article
    requires Complete(e)
  {
    Article(id, feedId, key, e.title.value, e.link.value, None,
            if e.description.Some? then e.description.value else "", e.published.value, now)
  }

  predicate HasArticleKey(articles: seq<Article>, feedId: int, key: string) {
    exists i :: 0 <= i < |articles| && articles[i].feedId == feedId && articles[i].uniqueId == key
  }

  predicate IdsBelow(articles: seq<Article>, n: int) {
    forall i :: 0 <= i < |articles| ==> articles[i].id < n
  }

  /** `after` is `before` with articles of the feed appended, numbered from
      `nextId` on, unread and added at `now`. */
  predicate Appended(before: seq<Article>, after: seq<Article>, nextId: int, feedId: int, now: Timestamp) {
    && |before| <= |after|
    && after[..|before|] == before
    && forall k :: |before| <= k < |after| ==>
         after[k].id == nextId + (k - |before|) && after[k].feedId == feedId
         && after[k].readAt.None? && after[k].addedAt == now
  }

  /** The articles, the next article id, and whether no exception was raised. */
  datatype Ingest = Ingest(articles: seq<Article>, nextId: int, ok: bool)

  /** One turn of the inner loop of `update_feeds`. */
  function IngestEntry(articles: seq<Article>, nextId: int, feedId: int, e: Entry, now: Timestamp): (r: Ingest)
    ensures r.ok <==> (DedupKey(e).Some? &&
      (GetArticle(articles, feedId, DedupKey(e).value).OneRow? ||
       (GetArticle(articles, feedId, DedupKey(e).value) == NoRow && Complete(e))))
    ensures |r.articles| == |articles| + 1 <==>
      r.ok && GetArticle(articles, feedId, DedupKey(e).value) == NoRow
    ensures |r.articles| != |articles| + 1 ==> r.articles == articles && r.nextId == nextId
    ensures |r.articles| == |articles| + 1 ==>
      r.articles == articles + [NewArticle(nextId, feedId, DedupKey(e).value, e, now)] && r.nextId == nextId + 1
  {
    match DedupKey(e)
    case None => Ingest(articles, nextId, false)
    case Some(key) =>
      match GetArticle(articles, feedId, key)
      case ManyRows => Ingest(articles, nextId, false)
      case OneRow(_) => Ingest(articles, nextId, true)
      case NoRow =>
        if !Complete(e) then Ingest(articles, nextId, false)
        else Ingest(articles + [NewArticle(nextId, feedId, key, e, now)], nextId + 1, true)
  }

  /** The inner loop: the entries in order, stopping at the first that raises.
      Every insert is committed at once, so the articles added before the
      failing entry stay. */
  function IngestEntries(articles: seq<Article>, nextId: int, feedId: int, entries: seq<Entry>,
                         now: Timestamp): (r: Ingest)
    decreases |entries|
    ensures |articles| <= |r.articles| && r.nextId - nextId == |r.articles| - |articles|
  {
    if entries == [] then Ingest(articles, nextId, true)
    else
      var r := IngestEntry(articles, nextId, feedId, entries[0], now);
      if !r.ok then r else IngestEntries(r.articles, r.nextId, feedId, entries[1..], now)
  }

  /** Ingestion only appends: existing articles are untouched, and every new
      article belongs to the feed, is unread, added at `now` and numbered
      consecutively from `nextId`. */
  lemma {:induction false} IngestEntriesAppends(articles: seq<Article>, nextId: int, feedId: int,
                                                entries: seq<Entry>, now: Timestamp)
    ensures var r := IngestEntries(articles, nextId, feedId, entries, now);
      Appended(articles, r.articles, nextId, feedId, now) && r.nextId == nextId + (|r.articles| - |articles|)
    decreases |entries|
  {
    if entries != [] {
      var r1 := IngestEntry(articles, nextId, feedId, entries[0], now);
      if r1.ok {
        IngestEntriesAppends(r1.articles, r1.nextId, feedId, entries[1..], now);
        var r := IngestEntries(r1.articles, r1.nextId, feedId, entries[1..], now);
        assert r1.articles[..|articles|] == articles;
        assert r.articles[..|r1.articles|][..|articles|] == r.articles[..|articles|];
        forall k | |articles| <= k < |r.articles|
          ensures r.articles[k].id == nextId + (k - |articles|) && r.articles[k].feedId == feedId
          ensures r.articles[k].readAt.None? && r.articles[k].addedAt == now
        {
          if k < |r1.articles| {
            assert r.articles[k] == r.articles[..|r1.articles|][k] == r1.articles[k];
          }
        }
      }
    }
  }

  /** Ingestion keeps the article ids ascending and below the next id. */
  lemma {:induction false} IngestEntriesKeepsIds(articles: seq<Article>, nextId: int, feedId: int,
                                                 entries: seq<Entry>, now: Timestamp)
    requires ArticleIdsAscending(articles) && IdsBelow(articles, nextId)
    ensures var r := IngestEntries(articles, nextId, feedId, entries, now);
      ArticleIdsAscending(r.articles) && IdsBelow(r.articles, r.nextId)
    decreases |entries|
  {
    if entries != [] {
      var r1 := IngestEntry(articles, nextId, feedId, entries[0], now);
      if r1.ok {
        IngestEntriesKeepsIds(r1.articles, r1.nextId, feedId, entries[1..], now);
      }
    }
  }

  /** The check before each insert keeps the (feed, key) pairs unique. */
  lemma {:induction false} IngestEntriesKeepsKeysUnique(articles: seq<Article>, nextId: int, feedId: int,
                                                        entries: seq<Entry>, now: Timestamp)
    requires UniqueArticleKeys(articles)
    ensures UniqueArticleKeys(IngestEntries(articles, nextId, feedId, entries, now).articles)
    decreases |entries|
  {
    if entries != [] {
      var r1 := IngestEntry(articles, nextId, feedId, entries[0], now);
      if |r1.articles| == |articles| + 1 {
        var key := DedupKey(entries[0]).value;
        var added := r1.articles[|articles|];
        forall i, j | 0 <= i < j < |r1.articles|
          ensures r1.articles[i].feedId != r1.articles[j].feedId || r1.articles[i].uniqueId != r1.articles[j].uniqueId
        {
          if j == |articles| {
            assert r1.articles[i] == articles[i];
            assert !(articles[i].feedId == feedId && articles[i].uniqueId == key);
          } else {
            assert r1.articles[i] == articles[i] && r1.articles[j] == articles[j];
          }
        }
      }
      if r1.ok {
        IngestEntriesKeepsKeysUnique(r1.articles, r1.nextId, feedId, entries[1..], now);
      }
    }
  }

  /** Every entry's key is held by some article of the feed. */
  predicate Covered(articles: seq<Article>, feedId: int, entries: seq<Entry>) {
    forall m :: 0 <= m < |entries| ==>
      DedupKey(entries[m]).Some? && HasArticleKey(articles, feedId, DedupKey(entries[m]).value)
  }

  /** Coverage survives appending rows. */
  lemma CoveredExtends(articles: seq<Article>, more: seq<Article>, feedId: int, entries: seq<Entry>)
    requires Covered(articles, feedId, entries)
    requires |articles| <= |more| && more[..|articles|] == articles
    ensures Covered(more, feedId, entries)
  {
    forall m | 0 <= m < |entries|
      ensures HasArticleKey(more, feedId, DedupKey(entries[m]).value)
    {
      assert HasArticleKey(articles, feedId, DedupKey(entries[m]).value);
      var i :| 0 <= i < |articles| && articles[i].feedId == feedId && articles[i].uniqueId == DedupKey(entries[m]).value;
      assert more[i] == articles[i];
    }
  }

  /** A run that raises nothing leaves an article for the key of every
      fetched entry. */
  lemma {:induction false} IngestEntriesCovers(articles: seq<Article>, nextId: int, feedId: int,
                                               entries: seq<Entry>, now: Timestamp)
    ensures var r := IngestEntries(articles, nextId, feedId, entries, now);
      r.ok ==> Covered(r.articles, feedId, entries)
    decreases |entries|
  {
    if entries != [] {
      var r1 := IngestEntry(articles, nextId, feedId, entries[0], now);
      if r1.ok {
        var key := DedupKey(entries[0]).value;
        if |r1.articles| == |articles| + 1 {
          assert r1.articles[|articles|].feedId == feedId && r1.articles[|articles|].uniqueId == key;
        } else {
          var row := GetArticle(articles, feedId, key).row;
          var i :| 0 <= i < |articles| && articles[i] == row;
        }
        assert HasArticleKey(r1.articles, feedId, key);
        IngestEntriesCovers(r1.articles, r1.nextId, feedId, entries[1..], now);
        IngestEntriesAppends(r1.articles, r1.nextId, feedId, entries[1..], now);
        var r := IngestEntries(r1.articles, r1.nextId, feedId, entries[1..], now);
        if r.ok {
          CoveredExtends(r1.articles, r.articles, feedId, [entries[0]]);
          forall m | 0 <= m < |entries|
            ensures DedupKey(entries[m]).Some? && HasArticleKey(r.articles, feedId, DedupKey(entries[m]).value)
          {
            if m > 0 {
              assert entries[m] == entries[1..][m - 1];
            }
          }
        }
      }
    }
  }

  /** Entries whose keys are all present add nothing and raise nothing. */
  lemma {:induction false} IngestEntriesCoveredIsNoOp(articles: seq<Article>, nextId: int, feedId: int,
                                                      entries: seq<Entry>, now: Timestamp)
    requires UniqueArticleKeys(articles)
    requires Covered(articles, feedId, entries)
    ensures IngestEntries(articles, nextId, feedId, entries, now) == Ingest(articles, nextId, true)
    decreases |entries|
  {
    if entries != [] {
      var key := DedupKey(entries[0]).value;
      assert HasArticleKey(articles, feedId, key);
      var i :| 0 <= i < |articles| && articles[i].feedId == feedId && articles[i].uniqueId == key;
      assert GetArticle(articles, feedId, key) != NoRow;
      assert forall m :: 0 <= m < |entries[1..]| ==> entries[1..][m] == entries[m + 1];
      IngestEntriesCoveredIsNoOp(articles, nextId, feedId, entries[1..], now);
    }
  }

  /** Two entries of one fetch with the same key yield one article: each
      insert is committed before the next entry is looked up. */
  lemma SameKeyInsertedOnce(articles: seq<Article>, nextId: int, feedId: int, e1: Entry, e2: Entry, now: Timestamp)
    requires UniqueArticleKeys(articles)
    requires DedupKey(e1).Some? && DedupKey(e2) == DedupKey(e1)
    requires !HasArticleKey(articles, feedId, DedupKey(e1).value)
    requires Complete(e1)
    ensures var r := IngestEntries(articles, nextId, feedId, [e1, e2], now);
      r.ok && r.articles == articles + [NewArticle(nextId, feedId, DedupKey(e1).value, e1, now)]
  {
    var key := DedupKey(e1).value;
    assert GetArticle(articles, feedId, key) == NoRow;
    var r1 := IngestEntry(articles, nextId, feedId, e1, now);
    assert r1.articles[|articles|].feedId == feedId && r1.articles[|articles|].uniqueId == key;
    IngestEntriesKeepsKeysUnique(articles, nextId, feedId, [e1], now);
    assert IngestEntries(r1.articles, r1.nextId, feedId, [], now) == Ingest(r1.articles, r1.nextId, true);
    assert GetArticle(r1.articles, feedId, key).OneRow?;
    assert [e1, e2][1..] == [e2];
    assert [e2][1..] == [];
  }

  // ---------------------------------------------------------------------
  // The outer loop, over the feeds

  /** The database, the progress messages yielded so far, and whether the
      run ended without an exception. */
  datatype Run = Run(db: Store, progress: seq<string>, ok: bool)

  const StartMessage: string := "Updating all feeds"
  const DoneMessage: string := "Done"

  /** The messages yielded for feeds that were processed completely. */
  function DoneLines(feeds: seq<Feed>): seq<string> {
    if feeds == [] then [] else [feeds[0].siteUrl, DoneMessage] + DoneLines(feeds[1..])
  }

  /** Feeds `i..` of `update_feeds`: yield the site URL, ingest the feed's
      entries, yield "Done", stamp the feed; stop at the first exception. */
  function IngestFeeds(db: Store, i: nat, fetched: map<string, seq<Entry>>, now: Timestamp,
                       progress: seq<string>): (r: Run)
    requires i <= |db.feeds|
    decreases |db.feeds| - i
    ensures |r.db.feeds| == |db.feeds|
    ensures progress <= r.progress
  {
    if i == |db.feeds| then Run(db, progress, true)
    else
      var feed := db.feeds[i];
      var r := IngestFeed(db, i, fetched, now);
      if !r.ok then Run(Absorb(db, r), progress + [feed.siteUrl], false)
      else IngestFeeds(NextDb(db, i, fetched, now), i + 1, fetched, now, progress + [feed.siteUrl, DoneMessage])
  }

  /** The database once feed `i` has been processed without exception. */
  function NextDb(db: Store, i: nat, fetched: map<string, seq<Entry>>, now: Timestamp): (r: Store)
    requires i < |db.feeds|
    ensures |r.feeds| == |db.feeds| && r.feeds[i].lastUpdated == Some(now)
    ensures |db.articles| <= |r.articles|
    ensures r.categories == db.categories && r.lists == db.lists && r.memberships == db.memberships
    ensures r.nextFeedId == db.nextFeedId && r.nextCategoryId == db.nextCategoryId
  {
    Absorb(db, IngestFeed(db, i, fetched, now)).(feeds := Stamp(db.feeds, i, now))
  }

  /** The entries of feed `i` ingested into the articles of `db`. */
  function IngestFeed(db: Store, i: nat, fetched: map<string, seq<Entry>>, now: Timestamp): Ingest
    requires i < |db.feeds|
  {
    IngestEntries(db.articles, db.nextArticleId, db.feeds[i].id, Fetched(fetched, db.feeds[i].feedUrl), now)
  }

  /** The database with the articles an ingestion produced. */
  function Absorb(db: Store, r: Ingest): Store {
    db.(articles := r.articles, nextArticleId := r.nextId)
  }

  /** `feed.feed_last_updated = now` for feed `i`. */
  function Stamp(feeds: seq<Feed>, i: nat, now: Timestamp): (r: seq<Feed>)
    requires i < |feeds|
    ensures |r| == |feeds| && r[i].lastUpdated == Some(now)
    ensures forall j :: 0 <= j < |feeds| && j != i ==> r[j] == feeds[j]
    ensures forall j :: 0 <= j < |feeds| ==> SameFeedRow(feeds[j], r[j])
  {
    feeds[i := feeds[i].(lastUpdated := Some(now))]
  }

  /** Stamping a feed keeps the database's guarantees. */
  lemma StampKeepsValid(db: Store, i: nat, now: Timestamp)
    requires i < |db.feeds| && Valid(db)
    ensures Valid(db.(feeds := Stamp(db.feeds, i, now)))
  {
    var feeds := Stamp(db.feeds, i, now);
    forall j | 0 <= j < |feeds| ensures feeds[j].id == db.feeds[j].id {
      assert SameFeedRow(db.feeds[j], feeds[j]);
    }
    FeedIdsKept(db.feeds, feeds);
  }

  /** The whole job, as `entrypoint` runs it: the generator drained. */
  function UpdateFeedsRun(db: Store, fetched: map<string, seq<Entry>>, now: Timestamp): (r: Run)
    ensures |r.db.feeds| == |db.feeds| && |r.progress| >= 1 && r.progress[0] == StartMessage
  {
    IngestFeeds(db, 0, fetched, now, [StartMessage])
  }

  /** Two feed rows that differ at most in when they were last updated. */
  predicate SameFeedRow(f: Feed, g: Feed) {
    f.(lastUpdated := None) == g.(lastUpdated := None)
  }

  predicate FeedsMatch(a: seq<Feed>, b: seq<Feed>) {
    |a| == |b| && forall j :: 0 <= j < |a| ==> SameFeedRow(a[j], b[j])
  }

  lemma FeedsMatchHasFeed(a: seq<Feed>, b: seq<Feed>, id: int)
    requires FeedsMatch(a, b)
    ensures HasFeed(a, id) == HasFeed(b, id)
  {
    if HasFeed(a, id) {
      var j :| 0 <= j < |a| && a[j].id == id;
      assert SameFeedRow(a[j], b[j]);
      assert b[j].id == b[j].(lastUpdated := None).id;
    }
    if HasFeed(b, id) {
      var j :| 0 <= j < |b| && b[j].id == id;
      assert SameFeedRow(a[j], b[j]);
      assert a[j].id == a[j].(lastUpdated := None).id;
    }
  }

  /** The job touches nothing but articles, the article counter and the
      feeds' update stamps; feeds before `i` are not touched at all. */
  lemma {:induction false} IngestFeedsFrame(db: Store, i: nat, fetched: map<string, seq<Entry>>, now: Timestamp,
                                            progress: seq<string>)
    requires i <= |db.feeds|
    decreases |db.feeds| - i
    ensures var r := IngestFeeds(db, i, fetched, now, progress);
      && r.db.categories == db.categories && r.db.lists == db.lists && r.db.memberships == db.memberships
      && r.db.nextFeedId == db.nextFeedId && r.db.nextCategoryId == db.nextCategoryId
      && FeedsMatch(db.feeds, r.db.feeds)
      && (forall j :: 0 <= j < i ==> r.db.feeds[j] == db.feeds[j])
  {
    if i < |db.feeds| && IngestFeed(db, i, fetched, now).ok {
      var db2 := NextDb(db, i, fetched, now);
      IngestFeedsFrame(db2, i + 1, fetched, now, progress + [db.feeds[i].siteUrl, DoneMessage]);
      var r := IngestFeeds(db2, i + 1, fetched, now, progress + [db.feeds[i].siteUrl, DoneMessage]);
      forall j | 0 <= j < |db.feeds| ensures SameFeedRow(db.feeds[j], r.db.feeds[j]) {
        assert SameFeedRow(db.feeds[j], db2.feeds[j]) && SameFeedRow(db2.feeds[j], r.db.feeds[j]);
      }
    }
  }

  /** Existing articles are never modified or removed; the new ones are
      numbered on from the counter, belong to a feed of the database, are
      unread and added at `now`. */
  lemma {:induction false} IngestFeedsAppends(db: Store, i: nat, fetched: map<string, seq<Entry>>, now: Timestamp,
                                              progress: seq<string>)
    requires i <= |db.feeds|
    decreases |db.feeds| - i
    ensures var r := IngestFeeds(db, i, fetched, now, progress);
      && |db.articles| <= |r.db.articles| && r.db.articles[..|db.articles|] == db.articles
      && r.db.nextArticleId == db.nextArticleId + (|r.db.articles| - |db.articles|)
      && (forall k :: |db.articles| <= k < |r.db.articles| ==>
            r.db.articles[k].id == db.nextArticleId + (k - |db.articles|)
            && HasFeed(db.feeds, r.db.articles[k].feedId)
            && r.db.articles[k].readAt.None? && r.db.articles[k].addedAt == now)
  {
    if i < |db.feeds| {
      var feed := db.feeds[i];
      var r1 := IngestFeed(db, i, fetched, now);
      IngestEntriesAppends(db.articles, db.nextArticleId, feed.id, Fetched(fetched, feed.feedUrl), now);
      assert Appended(db.articles, r1.articles, db.nextArticleId, feed.id, now);
      assert HasFeed(db.feeds, feed.id);
      if r1.ok {
        var db2 := NextDb(db, i, fetched, now);
        var p2 := progress + [feed.siteUrl, DoneMessage];
        IngestFeedsAppends(db2, i + 1, fetched, now, p2);
        var r := IngestFeeds(db2, i + 1, fetched, now, p2);
        assert r == IngestFeeds(db, i, fetched, now, progress);
        assert db2.articles == r1.articles;
        assert r.db.articles[..|r1.articles|][..|db.articles|] == r.db.articles[..|db.articles|];
        assert FeedsMatch(db.feeds, db2.feeds);
        forall k | |db.articles| <= k < |r.db.articles|
          ensures r.db.articles[k].id == db.nextArticleId + (k - |db.articles|)
          ensures HasFeed(db.feeds, r.db.articles[k].feedId)
          ensures r.db.articles[k].readAt.None? && r.db.articles[k].addedAt == now
        {
          if k < |r1.articles| {
            assert r.db.articles[k] == r.db.articles[..|r1.articles|][k] == r1.articles[k];
          } else {
            FeedsMatchHasFeed(db.feeds, db2.feeds, r.db.articles[k].feedId);
          }
        }
      }
    }
  }

  /** Ingesting one feed's entries keeps the database's guarantees. */
  lemma AbsorbKeepsInvariants(db: Store, i: nat, fetched: map<string, seq<Entry>>, now: Timestamp)
    requires i < |db.feeds| && Valid(db)
    ensures var db1 := Absorb(db, IngestFeed(db, i, fetched, now));
      && Valid(db1)
      && (UniqueArticleKeys(db.articles) ==> UniqueArticleKeys(db1.articles))
      && (NoOrphanArticles(db) ==> NoOrphanArticles(db1))
  {
    var feed := db.feeds[i];
    var entries := Fetched(fetched, feed.feedUrl);
    IngestEntriesAppends(db.articles, db.nextArticleId, feed.id, entries, now);
    IngestEntriesKeepsIds(db.articles, db.nextArticleId, feed.id, entries, now);
    if UniqueArticleKeys(db.articles) {
      IngestEntriesKeepsKeysUnique(db.articles, db.nextArticleId, feed.id, entries, now);
    }
    var db1 := Absorb(db, IngestFeed(db, i, fetched, now));
    assert HasFeed(db.feeds, feed.id);
    if NoOrphanArticles(db) {
      forall k | 0 <= k < |db1.articles| ensures HasFeed(db.feeds, db1.articles[k].feedId) {
        if k < |db.articles| {
          assert db1.articles[k] == db.articles[k];
        }
      }
    }
  }

  /** Ingesting and stamping one feed keeps the database's guarantees. */
  lemma NextDbKeepsInvariants(db: Store, i: nat, fetched: map<string, seq<Entry>>, now: Timestamp)
    requires i < |db.feeds| && Valid(db)
    ensures var db2 := NextDb(db, i, fetched, now);
      && Valid(db2)
      && (UniqueArticleKeys(db.articles) ==> UniqueArticleKeys(db2.articles))
      && (NoOrphanArticles(db) ==> NoOrphanArticles(db2))
  {
    AbsorbKeepsInvariants(db, i, fetched, now);
    var db1 := Absorb(db, IngestFeed(db, i, fetched, now));
    var db2 := NextDb(db, i, fetched, now);
    StampKeepsValid(db1, i, now);
    assert db2 == db1.(feeds := Stamp(db1.feeds, i, now));
    assert FeedsMatch(db.feeds, db2.feeds);
    forall k | 0 <= k < |db2.articles|
      ensures HasFeed(db2.feeds, db2.articles[k].feedId) == HasFeed(db.feeds, db2.articles[k].feedId)
    {
      FeedsMatchHasFeed(db.feeds, db2.feeds, db2.articles[k].feedId);
    }
  }

  /** The job keeps the database's guarantees: ids ascending and below the
      counters, unique (feed, key) pairs, and no article without its feed. */
  lemma {:induction false} IngestFeedsKeepsInvariants(db: Store, i: nat, fetched: map<string, seq<Entry>>,
                                                      now: Timestamp, progress: seq<string>)
    requires i <= |db.feeds|
    requires Valid(db)
    decreases |db.feeds| - i
    ensures var r := IngestFeeds(db, i, fetched, now, progress);
      && Valid(r.db)
      && (UniqueArticleKeys(db.articles) ==> UniqueArticleKeys(r.db.articles))
      && (NoOrphanArticles(db) ==> NoOrphanArticles(r.db))
  {
    if i < |db.feeds| {
      var r1 := IngestFeed(db, i, fetched, now);
      if r1.ok {
        var p2 := progress + [db.feeds[i].siteUrl, DoneMessage];
        var db2 := NextDb(db, i, fetched, now);
        assert IngestFeeds(db, i, fetched, now, progress) == IngestFeeds(db2, i + 1, fetched, now, p2);
        NextDbKeepsInvariants(db, i, fetched, now);
        IngestFeedsKeepsInvariants(db2, i + 1, fetched, now, p2);
      } else {
        assert IngestFeeds(db, i, fetched, now, progress).db == Absorb(db, r1);
        AbsorbKeepsInvariants(db, i, fetched, now);
      }
    }
  }

  /** Progress and stamping on success: after what was yielded before, the
      run yields the site URL and "Done" of every feed, and stamps them all. */
  lemma {:induction false} IngestFeedsSucceeds(db: Store, i: nat, fetched: map<string, seq<Entry>>, now: Timestamp,
                                               progress: seq<string>)
    requires i <= |db.feeds|
    requires IngestFeeds(db, i, fetched, now, progress).ok
    decreases |db.feeds| - i
    ensures var r := IngestFeeds(db, i, fetched, now, progress);
      && r.progress == progress + DoneLines(db.feeds[i..])
      && forall j :: i <= j < |db.feeds| ==> r.db.feeds[j].lastUpdated == Some(now)
  {
    if i == |db.feeds| {
      assert db.feeds[i..] == [];
    } else {
      var feed := db.feeds[i];
      var p2 := progress + [feed.siteUrl, DoneMessage];
      var db2 := NextDb(db, i, fetched, now);
      IngestFeedsSucceeds(db2, i + 1, fetched, now, p2);
      IngestFeedsFrame(db2, i + 1, fetched, now, p2);
      assert db.feeds[i..][1..] == db2.feeds[i + 1..];
    }
  }

  /** The feed at which the run from feed `i` raises, or the number of
      feeds when it does not. */
  function FailingFeed(db: Store, i: nat, fetched: map<string, seq<Entry>>, now: Timestamp): (b: nat)
    requires i <= |db.feeds|
    decreases |db.feeds| - i
    ensures i <= b <= |db.feeds|
  {
    if i == |db.feeds| || !IngestFeed(db, i, fetched, now).ok then i
    else FailingFeed(NextDb(db, i, fetched, now), i + 1, fetched, now)
  }

  /** Progress on failure: the run stops at the failing feed `b`. It yields
      the lines of the feeds before `b` and then `b`'s site URL only. */
  lemma {:induction false} IngestFeedsFailsProgress(db: Store, i: nat, fetched: map<string, seq<Entry>>,
                                                    now: Timestamp, progress: seq<string>)
    requires i <= |db.feeds|
    requires !IngestFeeds(db, i, fetched, now, progress).ok
    decreases |db.feeds| - i
    ensures FailingFeed(db, i, fetched, now) < |db.feeds|
    ensures IngestFeeds(db, i, fetched, now, progress).progress
         == progress + DoneLines(db.feeds[i..FailingFeed(db, i, fetched, now)])
            + [db.feeds[FailingFeed(db, i, fetched, now)].siteUrl]
  {
    var feed := db.feeds[i];
    if !IngestFeed(db, i, fetched, now).ok {
      assert FailingFeed(db, i, fetched, now) == i;
      assert IngestFeeds(db, i, fetched, now, progress).progress == progress + [feed.siteUrl];
      assert db.feeds[i..i] == [];
    } else {
      var p2 := progress + [feed.siteUrl, DoneMessage];
      var db2 := NextDb(db, i, fetched, now);
      var b := FailingFeed(db2, i + 1, fetched, now);
      assert FailingFeed(db, i, fetched, now) == b;
      assert IngestFeeds(db, i, fetched, now, progress) == IngestFeeds(db2, i + 1, fetched, now, p2);
      IngestFeedsFailsProgress(db2, i + 1, fetched, now, p2);
      var rest := DoneLines(db2.feeds[i + 1..b]);
      assert db2.feeds[b] == db.feeds[b];
      assert db.feeds[i..b][1..] == db2.feeds[i + 1..b];
      assert DoneLines(db.feeds[i..b]) == [feed.siteUrl, DoneMessage] + rest;
      assert p2 + rest == progress + ([feed.siteUrl, DoneMessage] + rest);
    }
  }

  /** Stamping on failure: the run stamps the feeds before the failing feed
      `b` and leaves `b` and every later feed as they were. */
  lemma {:induction false} IngestFeedsFailsStamps(db: Store, i: nat, fetched: map<string, seq<Entry>>,
                                                  now: Timestamp, progress: seq<string>)
    requires i <= |db.feeds|
    requires !IngestFeeds(db, i, fetched, now, progress).ok
    decreases |db.feeds| - i
    ensures forall j :: i <= j < FailingFeed(db, i, fetched, now) ==>
      IngestFeeds(db, i, fetched, now, progress).db.feeds[j].lastUpdated == Some(now)
    ensures forall j :: FailingFeed(db, i, fetched, now) <= j < |db.feeds| ==>
      IngestFeeds(db, i, fetched, now, progress).db.feeds[j] == db.feeds[j]
  {
    if IngestFeed(db, i, fetched, now).ok {
      var p2 := progress + [db.feeds[i].siteUrl, DoneMessage];
      var db2 := NextDb(db, i, fetched, now);
      IngestFeedsFailsStamps(db2, i + 1, fetched, now, p2);
      IngestFeedsFrame(db2, i + 1, fetched, now, p2);
    }
  }

  /** After a run without exception, the key of every entry fetched for every
      feed from `i` on is held by an article of that feed. */
  lemma {:induction false} IngestFeedsCovers(db: Store, i: nat, fetched: map<string, seq<Entry>>, now: Timestamp,
                                             progress: seq<string>)
    requires i <= |db.feeds|
    decreases |db.feeds| - i
    ensures var r := IngestFeeds(db, i, fetched, now, progress);
      r.ok ==> forall j :: i <= j < |db.feeds| ==>
        Covered(r.db.articles, db.feeds[j].id, Fetched(fetched, db.feeds[j].feedUrl))
  {
    if i < |db.feeds| {
      var feed := db.feeds[i];
      var entries := Fetched(fetched, feed.feedUrl);
      var r1 := IngestFeed(db, i, fetched, now);
      if r1.ok {
        var p2 := progress + [feed.siteUrl, DoneMessage];
        var db2 := NextDb(db, i, fetched, now);
        var r := IngestFeeds(db2, i + 1, fetched, now, p2);
        IngestEntriesCovers(db.articles, db.nextArticleId, feed.id, entries, now);
        IngestFeedsCovers(db2, i + 1, fetched, now, p2);
        IngestFeedsAppends(db2, i + 1, fetched, now, p2);
        if r.ok {
          CoveredExtends(r1.articles, r.db.articles, feed.id, entries);
          forall j | i < j < |db.feeds|
            ensures Covered(r.db.articles, db.feeds[j].id, Fetched(fetched, db.feeds[j].feedUrl))
          {
            assert db2.feeds[j] == db.feeds[j];
          }
        }
      }
    }
  }

  /** A run over entries whose keys the database already holds, at any
      time `later`, inserts nothing: it yields every feed's lines and only
      stamps feeds `i..` with `later`. */
  lemma {:induction false} IngestFeedsCoveredOnlyStamps(db: Store, i: nat, fetched: map<string, seq<Entry>>,
                                                        later: Timestamp, progress: seq<string>)
    requires i <= |db.feeds|
    requires UniqueArticleKeys(db.articles)
    requires forall j :: i <= j < |db.feeds| ==>
      Covered(db.articles, db.feeds[j].id, Fetched(fetched, db.feeds[j].feedUrl))
    decreases |db.feeds| - i
    ensures IngestFeeds(db, i, fetched, later, progress).ok
    ensures IngestFeeds(db, i, fetched, later, progress).progress == progress + DoneLines(db.feeds[i..])
    ensures IngestFeeds(db, i, fetched, later, progress).db.(feeds := db.feeds) == db
    ensures forall j :: 0 <= j < i ==> IngestFeeds(db, i, fetched, later, progress).db.feeds[j] == db.feeds[j]
    ensures forall j :: i <= j < |db.feeds| ==>
      IngestFeeds(db, i, fetched, later, progress).db.feeds[j] == db.feeds[j].(lastUpdated := Some(later))
  {
    if i == |db.feeds| {
      assert db.feeds[i..] == [];
    } else {
      var feed := db.feeds[i];
      var p2 := progress + [feed.siteUrl, DoneMessage];
      IngestEntriesCoveredIsNoOp(db.articles, db.nextArticleId, feed.id, Fetched(fetched, feed.feedUrl), later);
      var db2 := NextDb(db, i, fetched, later);
      assert db2 == db.(feeds := Stamp(db.feeds, i, later));
      assert IngestFeeds(db, i, fetched, later, progress) == IngestFeeds(db2, i + 1, fetched, later, p2);
      IngestFeedsCoveredOnlyStamps(db2, i + 1, fetched, later, p2);
      assert db.feeds[i..][1..] == db2.feeds[i + 1..];
    }
  }

  lemma {:induction false} DoneLinesMatch(a: seq<Feed>, b: seq<Feed>)
    requires FeedsMatch(a, b)
    ensures DoneLines(a) == DoneLines(b)
    decreases |a|
  {
    if a != [] {
      assert SameFeedRow(a[0], b[0]);
      assert a[0].siteUrl == a[0].(lastUpdated := None).siteUrl;
      assert b[0].siteUrl == b[0].(lastUpdated := None).siteUrl;
      assert FeedsMatch(a[1..], b[1..]) by {
        forall j | 0 <= j < |a| - 1 ensures SameFeedRow(a[1..][j], b[1..][j]) {
          assert SameFeedRow(a[j + 1], b[j + 1]);
        }
      }
      DoneLinesMatch(a[1..], b[1..]);
    }
  }

  /** Running the job again later over the same entries inserts nothing:
      it succeeds, yields the same messages, keeps every article and the
      next id, and only stamps every feed with the new time. */
  lemma UpdateFeedsRerun(db: Store, fetched: map<string, seq<Entry>>, now: Timestamp, later: Timestamp)
    requires UniqueArticleKeys(db.articles)
    requires UpdateFeedsRun(db, fetched, now).ok
    ensures var r := UpdateFeedsRun(db, fetched, now);
      var again := UpdateFeedsRun(r.db, fetched, later);
      && again.ok
      && again.progress == r.progress
      && again.db.articles == r.db.articles && again.db.nextArticleId == r.db.nextArticleId
      && again.db.(feeds := r.db.feeds) == r.db
      && |again.db.feeds| == |r.db.feeds|
      && forall j :: 0 <= j < |r.db.feeds| ==> again.db.feeds[j] == r.db.feeds[j].(lastUpdated := Some(later))
  {
    var r := UpdateFeedsRun(db, fetched, now);
    IngestFeedsFrame(db, 0, fetched, now, [StartMessage]);
    IngestFeedsSucceeds(db, 0, fetched, now, [StartMessage]);
    IngestFeedsCovers(db, 0, fetched, now, [StartMessage]);
    IngestFeedsKeepsKeysUnique(db, 0, fetched, now, [StartMessage]);
    forall j | 0 <= j < |r.db.feeds|
      ensures Covered(r.db.articles, r.db.feeds[j].id, Fetched(fetched, r.db.feeds[j].feedUrl))
    {
      assert SameFeedRow(db.feeds[j], r.db.feeds[j]);
      assert db.feeds[j].id == db.feeds[j].(lastUpdated := None).id;
      assert r.db.feeds[j].id == r.db.feeds[j].(lastUpdated := None).id;
      assert db.feeds[j].feedUrl == db.feeds[j].(lastUpdated := None).feedUrl;
      assert r.db.feeds[j].feedUrl == r.db.feeds[j].(lastUpdated := None).feedUrl;
    }
    IngestFeedsCoveredOnlyStamps(r.db, 0, fetched, later, [StartMessage]);
    assert db.feeds[0..] == db.feeds && r.db.feeds[0..] == r.db.feeds;
    DoneLinesMatch(db.feeds, r.db.feeds);
  }

  /** Running the job a second time at the same moment over the same
      entries changes nothing and yields the same messages. */
  lemma UpdateFeedsIdempotent(db: Store, fetched: map<string, seq<Entry>>, now: Timestamp)
    requires UniqueArticleKeys(db.articles)
    requires UpdateFeedsRun(db, fetched, now).ok
    ensures var r := UpdateFeedsRun(db, fetched, now);
      UpdateFeedsRun(r.db, fetched, now) == r
  {
    var r := UpdateFeedsRun(db, fetched, now);
    UpdateFeedsRerun(db, fetched, now, now);
    IngestFeedsSucceeds(db, 0, fetched, now, [StartMessage]);
    var again := UpdateFeedsRun(r.db, fetched, now);
    assert again.db.feeds == r.db.feeds;
    assert again.db == r.db;
  }

  /** The check before each insert keeps (feed, key) pairs unique across the
      whole run, whatever the database's other invariants. */
  lemma {:induction false} IngestFeedsKeepsKeysUnique(db: Store, i: nat, fetched: map<string, seq<Entry>>,
                                                      now: Timestamp, progress: seq<string>)
    requires i <= |db.feeds|
    requires UniqueArticleKeys(db.articles)
    decreases |db.feeds| - i
    ensures UniqueArticleKeys(IngestFeeds(db, i, fetched, now, progress).db.articles)
  {
    if i < |db.feeds| {
      var feed := db.feeds[i];
      IngestEntriesKeepsKeysUnique(db.articles, db.nextArticleId, feed.id, Fetched(fetched, feed.feedUrl), now);
      if IngestFeed(db, i, fetched, now).ok {
        IngestFeedsKeepsKeysUnique(NextDb(db, i, fetched, now), i + 1, fetched, now, progress + [feed.siteUrl, DoneMessage]);
      }
    }
  }

  // ---------------------------------------------------------------------
  // The job on a session

  lemma IngestEntriesStep(articles: seq<Article>, nextId: int, feedId: int, entries: seq<Entry>, j: nat,
                          now: Timestamp)
    requires j < |entries|
    ensures var r := IngestEntry(articles, nextId, feedId, entries[j], now);
      IngestEntries(articles, nextId, feedId, entries[j..], now)
      == if r.ok then IngestEntries(r.articles, r.nextId, feedId, entries[j + 1..], now) else r
  {
    assert entries[j..][1..] == entries[j + 1..];
  }

  /** One turn of the inner loop on the session: look the entry's key up
      and insert a new article when it is not there yet. */
  method IngestEntryInto(s: Session, feedId: int, e: Entry, now: Timestamp) returns (ok: bool)
    requires s.Valid()
    modifies s
    ensures s.Valid()
    ensures var r := IngestEntry(old(s.articles), old(s.nextArticleId), feedId, e, now);
      ok == r.ok && s.Snapshot() == Absorb(old(s.Snapshot()), r)
  {
    var key := DedupKey(e);
    if key.None? {
      return false;
    }
    var existing := GetArticle(s.articles, feedId, key.value);
    if existing.ManyRows? {
      return false;
    }
    if existing.NoRow? {
      if !Complete(e) {
        return false;
      }
      var description := if e.description.Some? then e.description.value else "";
      var article := s.AddArticle(feedId, key.value, e.title.value, e.link.value, description,
                                  e.published.value, now);
    }
    ok := true;
  }

  /** The inner loop of `update_feeds`: the entries of one feed, in order,
      each inserted (and committed) unless its key is already there. */
  method IngestFeedEntries(s: Session, feedId: int, entries: seq<Entry>, now: Timestamp) returns (ok: bool)
    requires s.Valid()
    modifies s
    ensures s.Valid()
    ensures var r := IngestEntries(old(s.articles), old(s.nextArticleId), feedId, entries, now);
      ok == r.ok && s.Snapshot() == Absorb(old(s.Snapshot()), r)
  {
    var j := 0;
    while j < |entries|
      invariant 0 <= j <= |entries|
      invariant s.Valid()
      invariant s.Snapshot() == old(s.Snapshot()).(articles := s.articles, nextArticleId := s.nextArticleId)
      invariant IngestEntries(old(s.articles), old(s.nextArticleId), feedId, entries, now)
             == IngestEntries(s.articles, s.nextArticleId, feedId, entries[j..], now)
    {
      IngestEntriesStep(s.articles, s.nextArticleId, feedId, entries, j, now);
      var entryOk := IngestEntryInto(s, feedId, entries[j], now);
      if !entryOk {
        return false;
      }
      j := j + 1;
    }
    assert entries[j..] == [];
    ok := true;
  }

  /** `update_feeds`, drained to the end: returns the messages yielded and
      whether the run ended without an exception. */
  method UpdateFeeds(s: Session, fetched: map<string, seq<Entry>>, now: Timestamp)
    returns (progress: seq<string>, ok: bool)
    requires s.Valid()
    modifies s
    ensures s.Valid()
    ensures Run(s.Snapshot(), progress, ok) == UpdateFeedsRun(old(s.Snapshot()), fetched, now)
  {
    progress := [StartMessage];
    var i := 0;
    while i < |s.feeds|
      invariant 0 <= i <= |s.feeds|
      invariant s.Valid()
      invariant IngestFeeds(s.Snapshot(), i, fetched, now, progress) == UpdateFeedsRun(old(s.Snapshot()), fetched, now)
      decreases |s.feeds| - i
    {
      var feed := s.feeds[i];
      ghost var start := s.Snapshot();
      ghost var before := progress;
      progress := progress + [feed.siteUrl];
      ok := IngestFeedEntries(s, feed.id, Fetched(fetched, feed.feedUrl), now);
      assert Absorb(start, IngestFeed(start, i, fetched, now)) == s.Snapshot();
      if !ok {
        return;
      }
      progress := progress + [DoneMessage];
      StampKeepsValid(s.Snapshot(), i, now);
      s.feeds := Stamp(s.feeds, i, now);
      assert s.Snapshot() == NextDb(start, i, fetched, now);
      assert progress == before + [feed.siteUrl, DoneMessage];
      i := i + 1;
    }
    ok := true;
  }

  /** `entrypoint` running `update_feeds`: drains the generator, so every
      feed is visited; a run without exception stamps every feed. */
  method Entrypoint(s: Session, fetched: map<string, seq<Entry>>, now: Timestamp) returns (ok: bool)
    requires s.Valid()
    modifies s
    ensures s.Valid()
    ensures s.Snapshot() == UpdateFeedsRun(old(s.Snapshot()), fetched, now).db
    ensures ok ==> forall j :: 0 <= j < |s.feeds| ==> s.feeds[j].lastUpdated == Some(now)
  {
    ghost var db := s.Snapshot();
    IngestFeedsFrame(db, 0, fetched, now, [StartMessage]);
    var progress;
    progress, ok := UpdateFeeds(s, fetched, now);
    if ok {
      IngestFeedsSucceeds(db, 0, fetched, now, [StartMessage]);
    }
  }
}
