/** The database session and the queries and updates of quickfeed/api.py.
    Queries are functions of the tables; updates are methods of `Session`,
    whose fields are the tables, and each states the new contents of the
    whole database. */
module Api {
  import opened Collections
  import opened Models
  import opened Sorting

  const DefaultCategoryName: string := "Default"
  const BookmarksListName: string := "Bookmarks"

  // ---------------------------------------------------------------------
  // Query conditions (the WHERE clauses)

  function FeedIdIs(id: int): Feed -> bool { (f: Feed) => f.id == id }
  function FeedIdIsNot(id: int): Feed -> bool { (f: Feed) => f.id != id }
  function FeedUrlIs(url: string): Feed -> bool { (f: Feed) => f.feedUrl == url }
  function FeedInCategory(categoryId: int): Feed -> bool { (f: Feed) => f.categoryId == Some(categoryId) }
  function ArticleIdIs(id: int): Article -> bool { (a: Article) => a.id == id }
  function ArticleIdIsNot(id: int): Article -> bool { (a: Article) => a.id != id }
  function ArticleOfFeed(feedId: int): Article -> bool { (a: Article) => a.feedId == feedId }
  function ArticleNotOfFeed(feedId: int): Article -> bool { (a: Article) => a.feedId != feedId }
  function ArticleKeyIs(feedId: int, uniqueId: string): Article -> bool {
    (a: Article) => a.feedId == feedId && a.uniqueId == uniqueId
  }
  function CategoryIdIs(id: int): Category -> bool { (c: Category) => c.id == id }
  function CategoryIdIsNot(id: int): Category -> bool { (c: Category) => c.id != id }
  function CategoryNameIs(name: string): Category -> bool { (c: Category) => c.name == name }
  function ListIdIs(id: int): List -> bool { (l: List) => l.id == id }
  function ListNameIs(name: string): List -> bool { (l: List) => l.name == name }

  // ---------------------------------------------------------------------
  // Lookups by primary key: the key is unique, so `one_or_none` returns the
  // only match, and `one` fails exactly when there is none.

  function FeedById(feeds: seq<Feed>, id: int): (r: Option<Feed>)
    ensures r.Some? <==> HasFeed(feeds, id)
    ensures r.Some? ==> r.value in feeds && r.value.id == id
  {
    var rows := Filter(feeds, FeedIdIs(id));
    if rows == [] then None else Some(rows[0])
  }

  function ArticleById(articles: seq<Article>, id: int): (r: Option<Article>)
    ensures r.Some? <==> exists i :: 0 <= i < |articles| && articles[i].id == id
    ensures r.Some? ==> r.value in articles && r.value.id == id
  {
    var rows := Filter(articles, ArticleIdIs(id));
    if rows == [] then None else Some(rows[0])
  }

  function CategoryById(categories: seq<Category>, id: int): (r: Option<Category>)
    ensures r.Some? <==> HasCategory(categories, id)
    ensures r.Some? ==> r.value in categories && r.value.id == id
  {
    var rows := Filter(categories, CategoryIdIs(id));
    if rows == [] then None else Some(rows[0])
  }

  function ListById(lists: seq<List>, id: int): (r: Option<List>)
    ensures r.Some? <==> exists i :: 0 <= i < |lists| && lists[i].id == id
    ensures r.Some? ==> r.value in lists && r.value.id == id
  {
    var rows := Filter(lists, ListIdIs(id));
    if rows == [] then None else Some(rows[0])
  }

  // ---------------------------------------------------------------------
  // Lookups on columns that are not keys: `one_or_none` raises when more
  // than one row matches.

  /** `get_feed_by_uri` */
  function GetFeedByUri(feeds: seq<Feed>, url: string): (r: Lookup<Feed>)
    ensures r == NoRow <==> forall i :: 0 <= i < |feeds| ==> feeds[i].feedUrl != url
    ensures r.OneRow? ==> r.row in feeds && r.row.feedUrl == url
    ensures UniqueFeedUrls(feeds) ==> !r.ManyRows?
  {
    if UniqueFeedUrls(feeds) then
      FilterAtMostOne(feeds, FeedUrlIs(url));
      FilterEmpty(feeds, FeedUrlIs(url));
      OneOrNone(Filter(feeds, FeedUrlIs(url)))
    else
      FilterEmpty(feeds, FeedUrlIs(url));
      OneOrNone(Filter(feeds, FeedUrlIs(url)))
  }

  /** `get_article`: the article of a feed with a given unique id. */
  function GetArticle(articles: seq<Article>, feedId: int, uniqueId: string): (r: Lookup<Article>)
    ensures r == NoRow <==>
      forall i :: 0 <= i < |articles| ==> !(articles[i].feedId == feedId && articles[i].uniqueId == uniqueId)
    ensures r.OneRow? ==> r.row in articles && r.row.feedId == feedId && r.row.uniqueId == uniqueId
    ensures r.OneRow? ==> forall i :: 0 <= i < |articles| ==>
      (articles[i].feedId == feedId && articles[i].uniqueId == uniqueId ==> articles[i] == r.row)
    ensures UniqueArticleKeys(articles) ==> !r.ManyRows?
  {
    if UniqueArticleKeys(articles) then
      FilterAtMostOne(articles, ArticleKeyIs(feedId, uniqueId));
      FilterEmpty(articles, ArticleKeyIs(feedId, uniqueId));
      OneOrNone(Filter(articles, ArticleKeyIs(feedId, uniqueId)))
    else
      FilterEmpty(articles, ArticleKeyIs(feedId, uniqueId));
      OneOrNone(Filter(articles, ArticleKeyIs(feedId, uniqueId)))
  }

  /** `get_category_by_name` */
  function GetCategoryByName(categories: seq<Category>, name: string): (r: Lookup<Category>)
    ensures r == NoRow <==> forall i :: 0 <= i < |categories| ==> categories[i].name != name
    ensures r.OneRow? ==> r.row in categories && r.row.name == name
    ensures r.OneRow? ==> forall i :: 0 <= i < |categories| && categories[i].name == name ==> categories[i] == r.row
  {
    FilterEmpty(categories, CategoryNameIs(name));
    OneOrNone(Filter(categories, CategoryNameIs(name)))
  }

  /** `get_default_category`: looked up by the exact name "Default". */
  function GetDefaultCategory(categories: seq<Category>): (r: Lookup<Category>)
    ensures r == NoRow <==> forall i :: 0 <= i < |categories| ==> categories[i].name != "Default"
    ensures r.OneRow? ==> r.row in categories && r.row.name == "Default"
  {
    GetCategoryByName(categories, DefaultCategoryName)
  }

  /** `get_bookmark_list`: looked up by the exact name "Bookmarks". */
  function GetBookmarkList(lists: seq<List>): (r: Lookup<List>)
    ensures r == NoRow <==> forall i :: 0 <= i < |lists| ==> lists[i].name != "Bookmarks"
    ensures r.OneRow? ==> r.row in lists && r.row.name == "Bookmarks"
  {
    FilterEmpty(lists, ListNameIs(BookmarksListName));
    OneOrNone(Filter(lists, ListNameIs(BookmarksListName)))
  }

  /** `get_article_in_list`: the membership row of (article, list), if any. */
  function GetArticleInList(memberships: set<ArticleList>, listId: int, articleId: int): (r: Option<ArticleList>)
    ensures r.Some? <==> ArticleList(articleId, listId) in memberships
    ensures r.Some? ==> r.value.articleId == articleId && r.value.listId == listId
  {
    if ArticleList(articleId, listId) in memberships then Some(ArticleList(articleId, listId)) else None
  }

  /** `get_articles_in_list`: the membership rows of one list. */
  function GetArticlesInList(memberships: set<ArticleList>, listId: int): (r: set<ArticleList>)
    ensures forall m :: m in r <==> m in memberships && m.listId == listId
  {
    set m | m in memberships && m.listId == listId
  }

  /** `feed.articles`: the articles of a feed, in table order. */
  function GetFeedArticles(articles: seq<Article>, feedId: int): (r: seq<Article>)
    ensures forall i :: 0 <= i < |r| ==> r[i].feedId == feedId && r[i] in articles
    ensures forall i :: 0 <= i < |articles| && articles[i].feedId == feedId ==> articles[i] in r
  {
    Filter(articles, ArticleOfFeed(feedId))
  }

  /** `get_feeds_by_category_id` */
  function GetFeedsByCategoryId(feeds: seq<Feed>, categoryId: int): (r: seq<Feed>)
    ensures forall i :: 0 <= i < |r| ==> r[i].categoryId == Some(categoryId) && r[i] in feeds
    ensures forall i :: 0 <= i < |feeds| && feeds[i].categoryId == Some(categoryId) ==> feeds[i] in r
  {
    Filter(feeds, FeedInCategory(categoryId))
  }

  /** The join of `get_feeds_by_category_name`: feeds whose category has the name. */
  function FeedInCategoryNamed(categories: seq<Category>, name: string): Feed -> bool {
    (f: Feed) => f.categoryId.Some? &&
         exists i :: 0 <= i < |categories| && categories[i].id == f.categoryId.value && categories[i].name == name
  }

  function GetFeedsByCategoryName(db: Store, name: string): (r: seq<Feed>)
    ensures forall i :: 0 <= i < |r| ==> r[i] in db.feeds && FeedInCategoryNamed(db.categories, name)(r[i])
    ensures forall f :: f in db.feeds && FeedInCategoryNamed(db.categories, name)(f) ==> f in r
  {
    Filter(db.feeds, FeedInCategoryNamed(db.categories, name))
  }

  // ---------------------------------------------------------------------
  // Specifications of the updates

  /** The database after `delete_feed_and_articles_by_id` found the feed:
      its articles, then the feed itself, are gone. */
  function FeedDeleted(db: Store, feedId: int): (r: Store)
    ensures forall i :: 0 <= i < |r.articles| ==> r.articles[i].feedId != feedId && r.articles[i] in db.articles
    ensures forall i :: 0 <= i < |r.feeds| ==> r.feeds[i].id != feedId && r.feeds[i] in db.feeds
  {
    db.(articles := Filter(db.articles, ArticleNotOfFeed(feedId)),
        feeds := Filter(db.feeds, FeedIdIsNot(feedId)))
  }

  /** The articles after `update_read`: the article with the id is read at `now`. */
  function MarkRead(articles: seq<Article>, articleId: int, now: Timestamp): (r: seq<Article>)
    ensures |r| == |articles|
    ensures forall i :: 0 <= i < |r| ==> r[i].(readAt := articles[i].readAt) == articles[i]
    ensures forall i :: 0 <= i < |r| ==> r[i].id == articleId ==> r[i].readAt == Some(now)
  {
    seq(|articles|, i requires 0 <= i < |articles| =>
      if articles[i].id == articleId then articles[i].(readAt := Some(now)) else articles[i])
  }

  /** Deleting a feed with its articles leaves no article without a feed:
      nothing of the feed remains, and every other feed and article is
      kept, in order. */
  lemma FeedDeletedLeavesNoOrphans(db: Store, feedId: int)
    requires NoOrphanArticles(db)
    ensures var after := FeedDeleted(db, feedId);
      && NoOrphanArticles(after)
      && !HasFeed(after.feeds, feedId)
      && (forall i :: 0 <= i < |after.articles| ==> after.articles[i].feedId != feedId)
      && (forall f :: f in db.feeds && f.id != feedId ==> f in after.feeds)
      && (forall a :: a in db.articles && a.feedId != feedId ==> a in after.articles)
      && after.categories == db.categories && after.lists == db.lists && after.memberships == db.memberships
  {
    var after := FeedDeleted(db, feedId);
    forall i | 0 <= i < |after.articles| ensures HasFeed(after.feeds, after.articles[i].feedId) {
      var a := after.articles[i];
      var m :| 0 <= m < |db.articles| && db.articles[m] == a;
      var k :| 0 <= k < |db.feeds| && db.feeds[k].id == a.feedId;
      assert FeedIdIsNot(feedId)(db.feeds[k]);
      var n :| 0 <= n < |after.feeds| && after.feeds[n] == db.feeds[k];
    }
    forall f | f in db.feeds && f.id != feedId ensures f in after.feeds {
      var k :| 0 <= k < |db.feeds| && db.feeds[k] == f;
    }
    forall a | a in db.articles && a.feedId != feedId ensures a in after.articles {
      var k :| 0 <= k < |db.articles| && db.articles[k] == a;
    }
  }

  /** Marking an article read changes only its `readAt`, keeps every key,
      and leaves the article read at `now`. */
  lemma MarkReadOnlyReads(articles: seq<Article>, articleId: int, now: Timestamp)
    ensures var r := MarkRead(articles, articleId, now);
      && (forall i :: 0 <= i < |r| ==> r[i] == articles[i].(readAt := r[i].readAt))
      && (forall i :: 0 <= i < |r| ==>
            (r[i].readAt == if articles[i].id == articleId then Some(now) else articles[i].readAt))
      && (ArticleIdsAscending(articles) ==> ArticleIdsAscending(r))
      && (UniqueArticleKeys(articles) ==> UniqueArticleKeys(r))
  {
    var r := MarkRead(articles, articleId, now);
    forall i | 0 <= i < |r| ensures r[i] == articles[i].(readAt := r[i].readAt) {
      assert r[i] == if articles[i].id == articleId then articles[i].(readAt := Some(now)) else articles[i];
    }
  }

  /** Filtering keeps article ids ascending. */
  lemma FilteredArticlesAscending(s: seq<Article>, p: Article -> bool)
    requires ArticleIdsAscending(s)
    ensures ArticleIdsAscending(Filter(s, p))
  {
    var idLess := (a: Article, b: Article) => a.id < b.id;
    assert SortedBy(s, idLess);
    FilterSorted(s, idLess, p);
  }

  /** Filtering keeps feed ids ascending. */
  lemma FilteredFeedsAscending(s: seq<Feed>, p: Feed -> bool)
    requires FeedIdsAscending(s)
    ensures FeedIdsAscending(Filter(s, p))
  {
    var idLess := (a: Feed, b: Feed) => a.id < b.id;
    assert SortedBy(s, idLess);
    FilterSorted(s, idLess, p);
  }

  /** Filtering keeps category ids ascending. */
  lemma FilteredCategoriesAscending(s: seq<Category>, p: Category -> bool)
    requires CategoryIdsAscending(s)
    ensures CategoryIdsAscending(Filter(s, p))
  {
    var idLess := (a: Category, b: Category) => a.id < b.id;
    assert SortedBy(s, idLess);
    FilterSorted(s, idLess, p);
  }

  /** The ids of a sequence of articles. */
  function IdsOf(s: seq<Article>): (ids: set<int>)
    ensures forall m :: 0 <= m < |s| ==> s[m].id in ids
    ensures forall x :: x in ids ==> exists m :: 0 <= m < |s| && s[m].id == x
  {
    set m | 0 <= m < |s| :: s[m].id
  }

  /** The articles that survive the deletion of the ids in `gone`. */
  function IdNotIn(gone: set<int>): Article -> bool {
    (a: Article) => a.id !in gone
  }

  /** Deleting, by id, every article of a feed deletes exactly the articles of
      that feed, because article ids are unique. */
  lemma DeletedByIdIsDeletedByFeed(articles: seq<Article>, feedId: int)
    requires ArticleIdsAscending(articles)
    ensures Filter(articles, IdNotIn(IdsOf(GetFeedArticles(articles, feedId))))
         == Filter(articles, ArticleNotOfFeed(feedId))
  {
    var doomed := GetFeedArticles(articles, feedId);
    var gone := IdsOf(doomed);
    forall i | 0 <= i < |articles|
      ensures IdNotIn(gone)(articles[i]) == ArticleNotOfFeed(feedId)(articles[i])
    {
      var a := articles[i];
      if a.feedId == feedId {
        assert a in doomed;
        var m :| 0 <= m < |doomed| && doomed[m] == a;
        assert a.id in gone;
      } else {
        forall m | 0 <= m < |doomed| ensures doomed[m].id != a.id {
          var j :| 0 <= j < |articles| && articles[j] == doomed[m];
          assert j != i;
        }
      }
    }
    FilterSameOn(articles, IdNotIn(gone), ArticleNotOfFeed(feedId));
  }

  /** One turn of the deletion loop: the next doomed article is still there,
      and deleting it by id extends the deleted prefix by one. */
  lemma DeleteStep(s: seq<Article>, doomed: seq<Article>, k: nat)
    requires ArticleIdsAscending(doomed)
    requires k < |doomed| && doomed[k] in s
    ensures ArticleById(Filter(s, IdNotIn(IdsOf(doomed[..k]))), doomed[k].id).Some?
    ensures Filter(Filter(s, IdNotIn(IdsOf(doomed[..k]))), ArticleIdIsNot(doomed[k].id))
         == Filter(s, IdNotIn(IdsOf(doomed[..k + 1])))
  {
    var target := doomed[k];
    var before := IdsOf(doomed[..k]);
    var after := IdsOf(doomed[..k + 1]);
    forall m | 0 <= m < k ensures doomed[..k][m].id != target.id {
      assert doomed[m].id < doomed[k].id;
    }
    assert after == before + {target.id} by {
      assert doomed[..k + 1][k] == target;
      forall x | x in after ensures x in before + {target.id} {
        var m :| 0 <= m < k + 1 && doomed[..k + 1][m].id == x;
        if m < k {
          assert doomed[..k][m] == doomed[..k + 1][m];
        }
      }
      forall x | x in before ensures x in after {
        var m :| 0 <= m < k && doomed[..k][m].id == x;
        assert doomed[..k + 1][m] == doomed[..k][m];
      }
    }
    var i :| 0 <= i < |s| && s[i] == target;
    assert target in Filter(s, IdNotIn(before));
    FilterFilter(s, IdNotIn(before), ArticleIdIsNot(target.id), IdNotIn(after));
  }

  // ---------------------------------------------------------------------

  /** A session on the database. Changes are written straight into the
      tables: a request that returns before committing changes nothing. */
  class Session {
    var feeds: seq<Feed>
    var articles: seq<Article>
    var categories: seq<Category>
    var lists: seq<List>
    var memberships: set<ArticleList>
    var nextFeedId: int
    var nextArticleId: int
    var nextCategoryId: int

    function Snapshot(): Store
      reads this
    {
      Store(feeds, articles, categories, lists, memberships, nextFeedId, nextArticleId, nextCategoryId)
    }

    predicate Valid()
      reads this
    {
      Models.Valid(Snapshot())
    }

    /** Opens a session on a database in the state `db`. */
    constructor (db: Store)
      requires Models.Valid(db)
      ensures Valid() && Snapshot() == db
    {
      feeds, articles, categories, lists := db.feeds, db.articles, db.categories, db.lists;
      memberships := db.memberships;
      nextFeedId, nextArticleId, nextCategoryId := db.nextFeedId, db.nextArticleId, db.nextCategoryId;
    }

    /** Discards every change since the session last stood at `db`: what
        closing a session without committing does. */
    method Rollback(db: Store)
      requires Models.Valid(db)
      modifies this
      ensures Valid() && Snapshot() == db
    {
      feeds, articles, categories, lists := db.feeds, db.articles, db.categories, db.lists;
      memberships := db.memberships;
      nextFeedId, nextArticleId, nextCategoryId := db.nextFeedId, db.nextArticleId, db.nextCategoryId;
    }

    /** `add_article`: appends a new, unread article with the next id. */
    method AddArticle(feedId: int, uniqueId: string, title: string, link: string,
                      description: string, publishedAt: Timestamp, addedAt: Timestamp)
      returns (article: Article)
      requires Valid()
      modifies this
      ensures Valid()
      ensures article == Article(old(nextArticleId), feedId, uniqueId, title, link, None,
                                 description, publishedAt, addedAt)
      ensures Snapshot() == old(Snapshot()).(articles := old(articles) + [article],
                                             nextArticleId := old(nextArticleId) + 1)
    {
      article := Article(nextArticleId, feedId, uniqueId, title, link, None, description, publishedAt, addedAt);
      articles := articles + [article];
      nextArticleId := nextArticleId + 1;
    }

    /** `delete_article_by_id`: `one()` fails when no article has the id. */
    method DeleteArticleById(articleId: int) returns (ok: bool)
      requires Valid()
      modifies this
      ensures Valid()
      ensures ok == ArticleById(old(articles), articleId).Some?
      ensures Snapshot() == if ok then old(Snapshot()).(articles := Filter(old(articles), ArticleIdIsNot(articleId)))
                            else old(Snapshot())
    {
      if ArticleById(articles, articleId).None? {
        return false;
      }
      FilteredArticlesAscending(articles, ArticleIdIsNot(articleId));
      articles := Filter(articles, ArticleIdIsNot(articleId));
      ok := true;
    }

    /** Deletes, one by one, the articles in `doomed`, all present and in
        ascending id order; the loop of `delete_feed_and_articles_by_id`. */
    method DeleteArticles(doomed: seq<Article>)
      requires Valid()
      requires ArticleIdsAscending(doomed)
      requires forall i :: 0 <= i < |doomed| ==> doomed[i] in articles
      modifies this
      ensures Valid()
      ensures Snapshot() == old(Snapshot()).(articles := Filter(old(articles), IdNotIn(IdsOf(doomed))))
    {
      ghost var before := articles;
      FilterAll(articles, IdNotIn(IdsOf(doomed[..0])));
      var k := 0;
      while k < |doomed|
        invariant 0 <= k <= |doomed|
        invariant Valid()
        invariant Snapshot() == old(Snapshot()).(articles := Filter(before, IdNotIn(IdsOf(doomed[..k]))))
      {
        DeleteStep(before, doomed, k);
        var ok := DeleteArticleById(doomed[k].id);
        k := k + 1;
      }
      assert doomed[..k] == doomed;
    }

    /** `delete_feed_and_articles_by_id`: False and no change when the feed
        does not exist; otherwise deletes each of the feed's articles, then
        the feed. List memberships are left as they are. */
    method DeleteFeedAndArticlesById(feedId: int) returns (found: bool)
      requires Valid()
      modifies this
      ensures Valid()
      ensures found == HasFeed(old(feeds), feedId)
      ensures Snapshot() == if found then FeedDeleted(old(Snapshot()), feedId) else old(Snapshot())
    {
      if FeedById(feeds, feedId).None? {
        return false;
      }
      var doomed := GetFeedArticles(articles, feedId);
      FilteredArticlesAscending(articles, ArticleOfFeed(feedId));
      DeletedByIdIsDeletedByFeed(articles, feedId);
      DeleteArticles(doomed);
      FilteredFeedsAscending(feeds, FeedIdIsNot(feedId));
      feeds := Filter(feeds, FeedIdIsNot(feedId));
      found := true;
    }

    /** `update_read`: marks the article read at `now`; `one()` fails, and
        nothing changes, when no article has the id. */
    method UpdateRead(articleId: int, now: Timestamp) returns (ok: bool)
      requires Valid()
      modifies this
      ensures Valid()
      ensures ok == ArticleById(old(articles), articleId).Some?
      ensures Snapshot() == if ok then old(Snapshot()).(articles := MarkRead(old(articles), articleId, now))
                            else old(Snapshot())
    {
      if ArticleById(articles, articleId).None? {
        return false;
      }
      articles := MarkRead(articles, articleId, now);
      ok := true;
    }

    /** `add_feed`: a new feed created at `now`, never synced. */
    method AddFeed(feedUrl: string, siteUrl: string, title: string, description: string,
                   categoryId: Option<int>, now: Timestamp)
      returns (feed: Feed)
      requires Valid()
      modifies this
      ensures Valid()
      ensures feed == Feed(old(nextFeedId), feedUrl, siteUrl, title, description, now, None, categoryId)
      ensures Snapshot() == old(Snapshot()).(feeds := old(feeds) + [feed], nextFeedId := old(nextFeedId) + 1)
    {
      feed := Feed(nextFeedId, feedUrl, siteUrl, title, description, now, None, categoryId);
      feeds := feeds + [feed];
      nextFeedId := nextFeedId + 1;
    }

    /** `add_category` */
    method AddCategory(name: string, description: string, orderNumber: int)
      returns (category: Category)
      requires Valid()
      modifies this
      ensures Valid()
      ensures category == Category(old(nextCategoryId), name, description, orderNumber)
      ensures Snapshot() == old(Snapshot()).(categories := old(categories) + [category],
                                             nextCategoryId := old(nextCategoryId) + 1)
    {
      category := Category(nextCategoryId, name, description, orderNumber);
      categories := categories + [category];
      nextCategoryId := nextCategoryId + 1;
    }

    /** `add_article_to_list`: inserting a membership that already exists
        violates the primary key and fails. */
    method AddArticleToList(listId: int, articleId: int) returns (ok: bool)
      requires Valid()
      modifies this
      ensures Valid()
      ensures ok == (ArticleList(articleId, listId) !in old(memberships))
      ensures Snapshot() == old(Snapshot()).(memberships := old(memberships) + {ArticleList(articleId, listId)})
    {
      ok := ArticleList(articleId, listId) !in memberships;
      memberships := memberships + {ArticleList(articleId, listId)};
    }
  }
}
