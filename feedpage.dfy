/** The article pages of quickfeed/routes.py: `feed_page` (all feeds, one
    category, or one list), and `bookmarks_page`. The articles of the chosen
    feeds are filtered by list membership, ranked, flagged when bookmarked
    and cut into pages with Python's floor division and slicing. The page
    template, the "last updated" line and the HTTP redirects are not part of
    this model; an error response is a `Failure`. */
module FeedPage {
  import opened Collections
  import opened Models
  import opened Sorting
  import opened Ranking
  import opened Api

  /** One article as the page template receives it. */
  datatype View = View(
    title: string,
    link: string,
    publishedAt: Timestamp,
    feedName: string,
    readAt: Option<Timestamp>,
    id: int,
    bookmarked: bool)

  datatype Page = Page(
    category: string,
    listName: Option<string>,
    page: int,
    perPage: int,
    totalPages: int,
    articles: seq<View>)

  /** `ListNotFound` is the "List not found" redirect; the others are
      uncaught exceptions: two lists named "Bookmarks" (`one_or_none`), a
      missing bookmark list on the bookmarks page (`None.id`), and
      `per_page == 0` (`len(articles) // 0`). */
  datatype Failure = ListNotFound | MultipleBookmarkLists | NoBookmarkList | ZeroPerPage

  datatype Outcome = Shown(view: Page) | Failed(failure: Failure)

  // ---------------------------------------------------------------------
  // Python arithmetic

  /** Python's `a // b`: rounds toward negative infinity. */
  function FloorDiv(a: int, b: int): (q: int)
    requires b != 0
    ensures b > 0 ==> q * b <= a < q * b + b
    ensures b < 0 ==> q * b >= a > q * b + b
  {
    if b > 0 then a / b else (-a) / (-b)
  }

  /** A slice bound as CPython normalises it for a sequence of length `n`. */
  function SliceIndex(i: int, n: nat): (k: nat)
    ensures k <= n
    ensures 0 <= i <= n ==> k == i
  {
    if i < 0 then (if i + n < 0 then 0 else i + n)
    else if i > n then n
    else i
  }

  /** Python's `s[lo:hi]`. */
  function PySlice<T>(s: seq<T>, lo: int, hi: int): seq<T> {
    var a := SliceIndex(lo, |s|);
    var b := SliceIndex(hi, |s|);
    if a < b then s[a..b] else []
  }

  function Min(a: int, b: int): int { if a <= b then a else b }

  // ---------------------------------------------------------------------
  // Selecting the articles

  /** The feeds the page is about: all of them, or those whose category has
      the name. */
  function SelectedFeeds(db: Store, category: Option<string>): seq<Feed> {
    if category.None? then db.feeds else GetFeedsByCategoryName(db, category.value)
  }

  /** Each article of `articles` paired with the feed it belongs to. */
  function WithFeed(articles: seq<Article>, feed: Feed): (r: seq<Ranked>)
    ensures |r| == |articles|
    ensures forall i :: 0 <= i < |r| ==> r[i] == Ranked(articles[i], feed)
  {
    seq(|articles|, i requires 0 <= i < |articles| => Ranked(articles[i], feed))
  }

  /** `[article for feed in feeds for article in feed.articles]`. */
  function FeedArticles(feeds: seq<Feed>, articles: seq<Article>): (r: seq<Ranked>)
    ensures forall i :: 0 <= i < |r| ==>
      r[i].feed in feeds && r[i].article in articles && r[i].article.feedId == r[i].feed.id
    decreases |feeds|
  {
    if feeds == [] then []
    else WithFeed(GetFeedArticles(articles, feeds[0].id), feeds[0]) + FeedArticles(feeds[1..], articles)
  }

  /** Every article of every chosen feed is on the page's list. */
  lemma {:induction false} FeedArticlesComplete(feeds: seq<Feed>, articles: seq<Article>, f: Feed, a: Article)
    requires f in feeds && a in articles && a.feedId == f.id
    ensures Ranked(a, f) in FeedArticles(feeds, articles)
    decreases |feeds|
  {
    var own := GetFeedArticles(articles, feeds[0].id);
    if feeds[0] == f {
      var i :| 0 <= i < |articles| && articles[i] == a;
      var j :| 0 <= j < |own| && own[j] == a;
      assert WithFeed(own, f)[j] == Ranked(a, f);
    } else {
      FeedArticlesComplete(feeds[1..], articles, f, a);
      var r := FeedArticles(feeds[1..], articles);
      var j :| 0 <= j < |r| && r[j] == Ranked(a, f);
      assert FeedArticles(feeds, articles)[|WithFeed(own, feeds[0])| + j] == Ranked(a, f);
    }
  }

  /** The ids of the articles in the list. */
  function ListIds(memberships: set<ArticleList>, listId: int): (ids: set<int>)
    ensures forall id :: id in ids <==> ArticleList(id, listId) in memberships
  {
    var rows := GetArticlesInList(memberships, listId);
    var ids := set m | m in rows :: m.articleId;
    assert forall id :: ArticleList(id, listId) in memberships ==> ArticleList(id, listId) in rows;
    ids
  }

  function IdIn(ids: set<int>): Ranked -> bool {
    (x: Ranked) => x.article.id in ids
  }

  /** The articles of the chosen feeds, restricted to the list's members
      when a list is given. */
  function Selected(db: Store, category: Option<string>, listId: Option<int>): seq<Ranked> {
    var picked := FeedArticles(SelectedFeeds(db, category), db.articles);
    if listId.None? then picked else Filter(picked, IdIn(ListIds(db.memberships, listId.value)))
  }

  /** With a list, an article is kept exactly when it belongs to a chosen
      feed and is a member of the list. */
  lemma SelectedInList(db: Store, category: Option<string>, listId: int, x: Ranked)
    ensures x in Selected(db, category, Some(listId)) <==>
      x in FeedArticles(SelectedFeeds(db, category), db.articles) &&
      ArticleList(x.article.id, listId) in db.memberships
  {
    var picked := FeedArticles(SelectedFeeds(db, category), db.articles);
    var r := Selected(db, category, Some(listId));
    if x in r {
      var i :| 0 <= i < |r| && r[i] == x;
    }
    if x in picked && ArticleList(x.article.id, listId) in db.memberships {
      var i :| 0 <= i < |picked| && picked[i] == x;
    }
  }

  /** The ids flagged as bookmarked; None when "Bookmarks" names more than
      one list. */
  function BookmarkedIds(db: Store): Option<set<int>> {
    match GetBookmarkList(db.lists)
    case NoRow => Some({})
    case OneRow(l) => Some(ListIds(db.memberships, l.id))
    case ManyRows => None
  }

  function ViewOf(x: Ranked, bookmarked: set<int>): View {
    View(x.article.title, x.article.link, x.article.publishedAt, x.feed.title,
         x.article.readAt, x.article.id, x.article.id in bookmarked)
  }

  function Views(xs: seq<Ranked>, bookmarked: set<int>): (r: seq<View>)
    ensures |r| == |xs|
    ensures forall i :: 0 <= i < |r| ==> r[i] == ViewOf(xs[i], bookmarked)
  {
    seq(|xs|, i requires 0 <= i < |xs| => ViewOf(xs[i], bookmarked))
  }

  /** The page heading: the category, or "All" when there is none. */
  function CategoryLabel(category: Option<string>): string {
    if category.Some? && category.value != "" then category.value else "All"
  }

  /** `feed_page`. It fails for exactly these reasons, checked in this
      order, and never for a missing bookmark list. */
  function FeedPageView(db: Store, category: Option<string>, listId: Option<int>,
                        page: int, perPage: int, now: Timestamp): (r: Outcome)
    ensures r == Failed(ListNotFound) <==> listId.Some? && ListById(db.lists, listId.value).None?
    ensures r == Failed(MultipleBookmarkLists) <==>
      (listId.None? || ListById(db.lists, listId.value).Some?) && GetBookmarkList(db.lists).ManyRows?
    ensures r == Failed(ZeroPerPage) <==>
      (listId.None? || ListById(db.lists, listId.value).Some?) && !GetBookmarkList(db.lists).ManyRows? &&
      perPage == 0
    ensures r != Failed(NoBookmarkList)
    ensures r.Shown? ==> r.view.page == page && r.view.perPage == perPage && r.view.category == CategoryLabel(category)
  {
    if listId.Some? && ListById(db.lists, listId.value).None? then Failed(ListNotFound)
    else
      match BookmarkedIds(db)
      case None => Failed(MultipleBookmarkLists)
      case Some(marked) =>
        var views := Views(SortArticles(Selected(db, category, listId), now), marked);
        if perPage == 0 then Failed(ZeroPerPage)
        else
          Shown(Page(
            CategoryLabel(category),
            if listId.Some? then Some(ListById(db.lists, listId.value).value.name) else None,
            page, perPage,
            FloorDiv(|views|, perPage),
            PySlice(views, (page - 1) * perPage, page * perPage)))
  }

  /** The articles shown, ranked: the full list before slicing is the
      selected articles, newest first, each flagged exactly when it is in
      the bookmark list. */
  lemma FeedPageRanked(db: Store, category: Option<string>, listId: Option<int>,
                       page: int, perPage: int, now: Timestamp)
    requires FeedPageView(db, category, listId, page, perPage, now).Shown?
    ensures var ranked := SortArticles(Selected(db, category, listId), now);
      && multiset(ranked) == multiset(Selected(db, category, listId))
      && (forall i, j :: 0 <= i < j < |ranked| ==> ranked[i].article.publishedAt >= ranked[j].article.publishedAt)
      && FeedPageView(db, category, listId, page, perPage, now).view.articles ==
           PySlice(Views(ranked, BookmarkedIds(db).value), (page - 1) * perPage, page * perPage)
      && forall i :: 0 <= i < |ranked| ==>
           (Views(ranked, BookmarkedIds(db).value)[i].bookmarked <==>
              GetBookmarkList(db.lists).OneRow? &&
              ArticleList(ranked[i].article.id, GetBookmarkList(db.lists).row.id) in db.memberships)
  {
  }

  // ---------------------------------------------------------------------
  // Pagination

  /** Page `page` (counted from 1) is the `perPage` items from position
      `(page - 1) * perPage`, fewer on the last page. */
  lemma PageSlice<T>(s: seq<T>, page: int, perPage: int)
    requires page >= 1 && perPage > 0
    ensures (page - 1) * perPage <= |s| ==>
      PySlice(s, (page - 1) * perPage, page * perPage) == s[(page - 1) * perPage..Min(page * perPage, |s|)]
    ensures (page - 1) * perPage >= |s| ==> PySlice(s, (page - 1) * perPage, page * perPage) == []
    ensures |PySlice(s, (page - 1) * perPage, page * perPage)| <= perPage
  {
    assert (page - 1) * perPage + perPage == page * perPage;
    assert 0 <= (page - 1) * perPage;
  }

  /** Item `i` of the ranked list is item `i % perPage` of page
      `i / perPage + 1`: the pages cover the list without overlap. */
  lemma PageHolds<T>(s: seq<T>, perPage: int, i: int)
    requires perPage > 0 && 0 <= i < |s|
    ensures var page := i / perPage + 1;
      var onPage := PySlice(s, (page - 1) * perPage, page * perPage);
      i % perPage < |onPage| && onPage[i % perPage] == s[i]
  {
    var page := i / perPage + 1;
    assert (page - 1) * perPage == (i / perPage) * perPage;
    assert (i / perPage) * perPage + i % perPage == i;
    PageSlice(s, page, perPage);
  }

  /** `total_pages` is the number of full pages: the floor, so a last,
      partly filled page is not counted. */
  lemma TotalPagesFloor(n: nat, perPage: int)
    requires perPage > 0
    ensures FloorDiv(n, perPage) * perPage <= n < (FloorDiv(n, perPage) + 1) * perPage
    ensures FloorDiv(n, perPage) >= 0
  {
    assert FloorDiv(n, perPage) == n / perPage;
    assert n / perPage >= 0;
  }

  // ---------------------------------------------------------------------
  // The bookmarks page

  /** `bookmarks_page`: the feed page restricted to the bookmark list. */
  function BookmarksPage(db: Store, page: int, perPage: int, now: Timestamp): (r: Outcome)
    ensures r == Failed(NoBookmarkList) <==> GetBookmarkList(db.lists).NoRow?
    ensures GetBookmarkList(db.lists).ManyRows? ==> r == Failed(MultipleBookmarkLists)
    ensures r.Shown? ==> r.view.category == "All" && r.view.listName.Some?
  {
    match GetBookmarkList(db.lists)
    case NoRow => Failed(NoBookmarkList)
    case ManyRows => Failed(MultipleBookmarkLists)
    case OneRow(l) => FeedPageView(db, None, Some(l.id), page, perPage, now)
  }

  /** A slice holds only elements of the sliced sequence. */
  lemma PySliceIn<T>(s: seq<T>, lo: int, hi: int)
    ensures forall v :: v in PySlice(s, lo, hi) ==> v in s
  {
  }

  /** Views of articles whose ids are all flagged are all bookmarked. */
  lemma ViewsAllBookmarked(xs: seq<Ranked>, ids: set<int>)
    requires forall i :: 0 <= i < |xs| ==> xs[i].article.id in ids
    ensures forall v :: v in Views(xs, ids) ==> v.bookmarked
  {
  }

  /** Everything on the bookmarks page is flagged as bookmarked, and every
      bookmarked article of any feed is on one of its pages. */
  lemma BookmarksPageAllBookmarked(db: Store, page: int, perPage: int, now: Timestamp)
    requires BookmarksPage(db, page, perPage, now).Shown?
    ensures GetBookmarkList(db.lists).OneRow?
    ensures forall v :: v in BookmarksPage(db, page, perPage, now).view.articles ==> v.bookmarked
    ensures var l := GetBookmarkList(db.lists).row;
      forall x :: x in FeedArticles(db.feeds, db.articles) && ArticleList(x.article.id, l.id) in db.memberships ==>
        x in Selected(db, None, Some(l.id))
  {
    var l := GetBookmarkList(db.lists).row;
    var ids := ListIds(db.memberships, l.id);
    var selected := Selected(db, None, Some(l.id));
    var ranked := SortArticles(selected, now);
    assert BookmarkedIds(db) == Some(ids);
    var views := Views(ranked, ids);
    assert BookmarksPage(db, page, perPage, now).view.articles == PySlice(views, (page - 1) * perPage, page * perPage);
    forall i | 0 <= i < |ranked| ensures ranked[i].article.id in ids {
      assert ranked[i] in multiset(selected);
      var j :| 0 <= j < |selected| && selected[j] == ranked[i];
    }
    ViewsAllBookmarked(ranked, ids);
    PySliceIn(views, (page - 1) * perPage, page * perPage);
    forall x | x in FeedArticles(db.feeds, db.articles) && ArticleList(x.article.id, l.id) in db.memberships
      ensures x in selected
    {
      SelectedInList(db, None, l.id, x);
    }
  }
}
