/** The five tables of the feed reader's database (quickfeed/models.py) and
    the integrity properties the application relies on. A table is the
    sequence of its rows in primary-key order, which is the order in which
    an unordered query returns them. */
module Models {
  import opened Collections

  /** Seconds on the server's clock. */
  type Timestamp = int

  /** A named list of articles; the list called "Bookmarks" holds bookmarks. */
  datatype List = List(id: int, name: string, description: string, orderNumber: int)

  /** Membership of an article in a list. Its primary key is the whole row,
      so the table is a set: a pair is either a member or not. */
  datatype ArticleList = ArticleList(articleId: int, listId: int)

  datatype Category = Category(id: int, name: string, description: string, orderNumber: int)

  /** `lastUpdated` is None until the feed has been synced; `categoryId` is
      declared NOT NULL, but the code can assign a missing category. */
  datatype Feed = Feed(
    id: int,
    feedUrl: string,
    siteUrl: string,
    title: string,
    description: string,
    addedAt: Timestamp,
    lastUpdated: Option<Timestamp>,
    categoryId: Option<int>)

  /** `readAt` is None while the article is unread. */
  datatype Article = Article(
    id: int,
    feedId: int,
    uniqueId: string,
    title: string,
    link: string,
    readAt: Option<Timestamp>,
    description: string,
    publishedAt: Timestamp,
    addedAt: Timestamp)

  /** The whole database, with the next value of each autoincrement key. */
  datatype Store = Store(
    feeds: seq<Feed>,
    articles: seq<Article>,
    categories: seq<Category>,
    lists: seq<List>,
    memberships: set<ArticleList>,
    nextFeedId: int,
    nextArticleId: int,
    nextCategoryId: int)

  /** What the database itself guarantees: autoincrement keys are larger than
      every key in use, and the primary keys of every table are unique (kept
      in ascending order). */
  predicate Valid(db: Store) {
    && (forall i :: 0 <= i < |db.feeds| ==> db.feeds[i].id < db.nextFeedId)
    && (forall i :: 0 <= i < |db.articles| ==> db.articles[i].id < db.nextArticleId)
    && (forall i :: 0 <= i < |db.categories| ==> db.categories[i].id < db.nextCategoryId)
    && FeedIdsAscending(db.feeds)
    && ArticleIdsAscending(db.articles)
    && CategoryIdsAscending(db.categories)
    && ListIdsAscending(db.lists)
  }

  predicate FeedIdsAscending(feeds: seq<Feed>) {
    forall i, j :: 0 <= i < j < |feeds| ==> feeds[i].id < feeds[j].id
  }

  /** Changing columns other than the key keeps the feed keys ascending. */
  lemma FeedIdsKept(before: seq<Feed>, after: seq<Feed>)
    requires FeedIdsAscending(before)
    requires |after| == |before| && forall i :: 0 <= i < |before| ==> after[i].id == before[i].id
    ensures FeedIdsAscending(after)
  {
  }

  predicate ArticleIdsAscending(articles: seq<Article>) {
    forall i, j :: 0 <= i < j < |articles| ==> articles[i].id < articles[j].id
  }

  predicate CategoryIdsAscending(categories: seq<Category>) {
    forall i, j :: 0 <= i < j < |categories| ==> categories[i].id < categories[j].id
  }

  predicate ListIdsAscending(lists: seq<List>) {
    forall i, j :: 0 <= i < j < |lists| ==> lists[i].id < lists[j].id
  }

  predicate HasFeed(feeds: seq<Feed>, feedId: int) {
    exists i :: 0 <= i < |feeds| && feeds[i].id == feedId
  }

  predicate HasCategory(categories: seq<Category>, categoryId: int) {
    exists i :: 0 <= i < |categories| && categories[i].id == categoryId
  }

  /** Every article references an existing feed (and so appears in that
      feed's `articles` collection). */
  predicate NoOrphanArticles(db: Store) {
    forall i :: 0 <= i < |db.articles| ==> HasFeed(db.feeds, db.articles[i].feedId)
  }

  /** The de-duplication key (feed, unique id) identifies at most one article.
      The schema does not declare it unique; ingestion keeps it so. */
  predicate UniqueArticleKeys(articles: seq<Article>) {
    forall i, j :: 0 <= i < j < |articles| ==>
      articles[i].feedId != articles[j].feedId || articles[i].uniqueId != articles[j].uniqueId
  }

  /** No two feeds share a source URL; the schema does not declare it unique,
      adding a feed checks it. */
  predicate UniqueFeedUrls(feeds: seq<Feed>) {
    forall i, j :: 0 <= i < j < |feeds| ==> feeds[i].feedUrl != feeds[j].feedUrl
  }

  /** Every feed names a category that exists (the NOT NULL foreign key). */
  predicate FeedsCategorized(db: Store) {
    forall i :: 0 <= i < |db.feeds| ==>
      db.feeds[i].categoryId.Some? && HasCategory(db.categories, db.feeds[i].categoryId.value)
  }
}
