/** The request handlers of quickfeed/routes.py that change the database:
    `delete_category`, `update_feeds` (the bulk category form), `bookmark`
    and `add_feed_post`. Each one is a method on the session, proved equal
    to a function giving the new database and the response. A handler that
    returns or raises before `session.commit()` changes nothing; the session
    is rolled back. Form fields arrive already parsed: ids as integers,
    the Referer as a parsed URL. */
module Handlers {
  import opened Collections
  import opened Models
  import opened Api
  import Redirects

  /** Why a request changed nothing (or, for `NoReferer`, why it failed
      after committing). */
  datatype Failure =
    | CategoryNotFound          // "Category not found"
    | MultipleRows              // `one_or_none` met two rows and raised
    | IntegrityError            // the commit wrote a feed with no category
    | InvalidFormData           // a malformed `category_*` form key
    | FormCategoryNotFound(value: string)
    | ArticleNotFound
    | NoBookmarkList
    | NoReferer                 // `urlparse(None)` raised
    | NoEntries                 // "No entries found in feed"
    | FeedAlreadyAdded
    | MissingFeedField          // the parsed feed has no link or no title

  datatype Status = Done | RedirectTo(url: string) | Failed(failure: Failure)

  /** Feed rows that the flush would write with a NULL `category_id`: rows
      that changed and lost their category. The column is NOT NULL, so the
      commit raises. */
  predicate NullIntroduced(before: seq<Feed>, after: seq<Feed>)
    requires |before| == |after|
  {
    exists i :: 0 <= i < |after| && after[i].categoryId.None? && before[i].categoryId.Some?
  }

  // ---------------------------------------------------------------------
  // delete_category

  /** The id `get_default_category` yields to assign: None when there is no
      category named "Default" (the code does not check). */
  function DefaultId(categories: seq<Category>): Option<int> {
    match GetDefaultCategory(categories)
    case OneRow(d) => Some(d.id)
    case _ => None
  }

  /** `feed.category = default_category` for every feed of the category. */
  function Reassigned(feeds: seq<Feed>, categoryId: int, target: Option<int>): (r: seq<Feed>)
    ensures |r| == |feeds|
    ensures forall i :: 0 <= i < |r| ==>
      r[i] == if feeds[i].categoryId == Some(categoryId) then feeds[i].(categoryId := target) else feeds[i]
  {
    seq(|feeds|, i requires 0 <= i < |feeds| =>
      if feeds[i].categoryId == Some(categoryId) then feeds[i].(categoryId := target) else feeds[i])
  }

  /** Deleting a category nullifies the foreign key of the feeds still in
      its `feeds` collection (the relationship has no delete cascade). */
  function Orphaned(feeds: seq<Feed>, categoryId: int): (r: seq<Feed>)
    ensures |r| == |feeds|
    ensures forall i :: 0 <= i < |r| ==>
      r[i] == if feeds[i].categoryId == Some(categoryId) then feeds[i].(categoryId := None) else feeds[i]
  {
    seq(|feeds|, i requires 0 <= i < |feeds| =>
      if feeds[i].categoryId == Some(categoryId) then feeds[i].(categoryId := None) else feeds[i])
  }

  /** `delete_category`: the new database and the response. */
  function DeleteCategoryResult(db: Store, categoryId: int): (r: (Store, Status))
    ensures r.1.Failed? ==> r.0 == db
    ensures r.1 == Done || r.1.Failed?
    ensures r.1 == Done ==> forall k :: 0 <= k < |r.0.categories| ==> r.0.categories[k].id != categoryId
    ensures r.1 == Done ==> |r.0.feeds| == |db.feeds| && r.0.articles == db.articles
  {
    if CategoryById(db.categories, categoryId).None? then (db, Failed(CategoryNotFound))
    else if GetDefaultCategory(db.categories).ManyRows? then (db, Failed(MultipleRows))
    else
      var feeds := Orphaned(Reassigned(db.feeds, categoryId, DefaultId(db.categories)), categoryId);
      if NullIntroduced(db.feeds, feeds) then (db, Failed(IntegrityError))
      else (db.(feeds := feeds, categories := Filter(db.categories, CategoryIdIsNot(categoryId))), Done)
  }

  /** The category has at least one feed. */
  predicate HasFeedsIn(feeds: seq<Feed>, categoryId: int) {
    exists i :: 0 <= i < |feeds| && feeds[i].categoryId == Some(categoryId)
  }

  /** Deleting an existing category fails at commit exactly when it still
      has feeds and there is no other "Default" category to move them to:
      either no category is called "Default", or the category deleted is it. */
  lemma DeleteCategoryRefused(db: Store, categoryId: int)
    requires CategoryById(db.categories, categoryId).Some?
    requires !GetDefaultCategory(db.categories).ManyRows?
    ensures DeleteCategoryResult(db, categoryId).1 == Failed(IntegrityError) <==>
      HasFeedsIn(db.feeds, categoryId) &&
      (DefaultId(db.categories).None? || DefaultId(db.categories) == Some(categoryId))
  {
    var target := DefaultId(db.categories);
    var feeds := Orphaned(Reassigned(db.feeds, categoryId, target), categoryId);
    if HasFeedsIn(db.feeds, categoryId) && (target.None? || target == Some(categoryId)) {
      var i :| 0 <= i < |db.feeds| && db.feeds[i].categoryId == Some(categoryId);
      assert feeds[i].categoryId.None?;
    }
    if NullIntroduced(db.feeds, feeds) {
      var i :| 0 <= i < |feeds| && feeds[i].categoryId.None? && db.feeds[i].categoryId.Some?;
      assert db.feeds[i].categoryId == Some(categoryId);
    }
  }

  /** After a successful deletion the category is gone, no feed refers to
      it, its feeds are in the "Default" category, no other feed changed,
      and every feed still has an existing category if it had one before. */
  lemma DeleteCategoryMovesFeeds(db: Store, categoryId: int)
    requires DeleteCategoryResult(db, categoryId).1 == Done
    ensures var after := DeleteCategoryResult(db, categoryId).0;
      && !HasCategory(after.categories, categoryId)
      && !HasFeedsIn(after.feeds, categoryId)
      && |after.feeds| == |db.feeds|
      && (forall i :: 0 <= i < |db.feeds| ==>
            after.feeds[i] == if db.feeds[i].categoryId == Some(categoryId)
                              then db.feeds[i].(categoryId := DefaultId(db.categories))
                              else db.feeds[i])
      && (FeedsCategorized(db) ==> FeedsCategorized(after))
  {
    var after := DeleteCategoryResult(db, categoryId).0;
    var p := CategoryIdIsNot(categoryId);
    if FeedsCategorized(db) {
      forall i | 0 <= i < |after.feeds|
        ensures after.feeds[i].categoryId.Some? && HasCategory(after.categories, after.feeds[i].categoryId.value)
      {
        if db.feeds[i].categoryId == Some(categoryId) {
          DeleteCategoryRefused(db, categoryId);
          var d := GetDefaultCategory(db.categories).row;
          var m :| 0 <= m < |db.categories| && db.categories[m] == d;
          assert p(db.categories[m]);
          var k :| 0 <= k < |after.categories| && after.categories[k] == d;
        } else {
          var c := db.feeds[i].categoryId.value;
          var m :| 0 <= m < |db.categories| && db.categories[m].id == c;
          assert p(db.categories[m]);
          var k :| 0 <= k < |after.categories| && after.categories[k] == db.categories[m];
        }
      }
    }
  }

  /** The loop of `delete_category` that moves the category's feeds. */
  method ReassignFeeds(s: Session, categoryId: int, target: Option<int>)
    requires s.Valid()
    modifies s
    ensures s.Valid()
    ensures s.Snapshot() == old(s.Snapshot()).(feeds := Reassigned(old(s.feeds), categoryId, target))
  {
    ghost var start := s.Snapshot();
    var i := 0;
    while i < |s.feeds|
      invariant 0 <= i <= |s.feeds| == |start.feeds|
      invariant s.Snapshot() == start.(feeds := s.feeds)
      invariant forall j :: 0 <= j < i ==>
        (s.feeds[j] == if start.feeds[j].categoryId == Some(categoryId)
                       then start.feeds[j].(categoryId := target) else start.feeds[j])
      invariant forall j :: i <= j < |s.feeds| ==> s.feeds[j] == start.feeds[j]
    {
      if s.feeds[i].categoryId == Some(categoryId) {
        s.feeds := s.feeds[i := s.feeds[i].(categoryId := target)];
      }
      i := i + 1;
    }
    assert s.feeds == Reassigned(start.feeds, categoryId, target);
  }

  /** `delete_category`. */
  method DeleteCategory(s: Session, categoryId: int) returns (status: Status)
    requires s.Valid()
    modifies s
    ensures s.Valid()
    ensures (s.Snapshot(), status) == DeleteCategoryResult(old(s.Snapshot()), categoryId)
  {
    var start := s.Snapshot();
    if CategoryById(s.categories, categoryId).None? {
      return Failed(CategoryNotFound);
    }
    var defaultCategory := GetDefaultCategory(s.categories);
    if defaultCategory.ManyRows? {
      return Failed(MultipleRows);
    }
    var target := if defaultCategory.OneRow? then Some(defaultCategory.row.id) else None;
    assert target == DefaultId(start.categories);
    ReassignFeeds(s, categoryId, target);
    // session.delete(category), then the flush of the commit
    FeedIdsKept(s.feeds, Orphaned(s.feeds, categoryId));
    FilteredCategoriesAscending(s.categories, CategoryIdIsNot(categoryId));
    s.feeds := Orphaned(s.feeds, categoryId);
    s.categories := Filter(s.categories, CategoryIdIsNot(categoryId));
    if NullIntroduced(start.feeds, s.feeds) {
      s.Rollback(start);
      return Failed(IntegrityError);
    }
    status := Done;
  }

  // ---------------------------------------------------------------------
  // bookmark

  /** Adds the membership when it is missing, removes it when present. */
  function Toggle(memberships: set<ArticleList>, m: ArticleList): (r: set<ArticleList>)
    ensures m in r <==> m !in memberships
    ensures forall n :: n != m ==> (n in r <==> n in memberships)
  {
    if m in memberships then memberships - {m} else memberships + {m}
  }

  /** `bookmark`: toggles the article's membership in the "Bookmarks" list
      and commits, then redirects to the sanitised Referer. Without a
      Referer header the redirect raises after the commit. */
  function BookmarkResult(db: Store, articleId: int, referer: Option<Redirects.Url>): (r: (Store, Status))
    ensures r.1.Failed? && r.1.failure != NoReferer ==> r.0 == db
    ensures r.0.(memberships := db.memberships) == db
  {
    if ArticleById(db.articles, articleId).None? then (db, Failed(ArticleNotFound))
    else
      match GetBookmarkList(db.lists)
      case NoRow => (db, Failed(NoBookmarkList))
      case ManyRows => (db, Failed(MultipleRows))
      case OneRow(l) =>
        var after := db.(memberships := Toggle(db.memberships, ArticleList(articleId, l.id)));
        if referer.None? then (after, Failed(NoReferer))
        else (after, RedirectTo(Redirects.ValidRedirect(referer.value)))
  }

  /** Bookmarking flips exactly one membership: the article's in the
      bookmark list; every other membership and every other table is as
      before. When the article or the list is missing nothing changes. */
  lemma BookmarkFlips(db: Store, articleId: int, referer: Option<Redirects.Url>)
    ensures var after := BookmarkResult(db, articleId, referer).0;
      && after.(memberships := db.memberships) == db
      && (ArticleById(db.articles, articleId).None? || !GetBookmarkList(db.lists).OneRow? ==> after == db)
      && (ArticleById(db.articles, articleId).Some? && GetBookmarkList(db.lists).OneRow? ==>
            var m := ArticleList(articleId, GetBookmarkList(db.lists).row.id);
            && (m in after.memberships <==> m !in db.memberships)
            && forall n :: n != m ==> (n in after.memberships <==> n in db.memberships))
  {
  }

  /** Bookmarking the same article twice restores the database. */
  lemma BookmarkTwice(db: Store, articleId: int, referer: Option<Redirects.Url>)
    ensures var once := BookmarkResult(db, articleId, referer).0;
      BookmarkResult(once, articleId, referer).0 == db
  {
    var once := BookmarkResult(db, articleId, referer).0;
    if ArticleById(db.articles, articleId).Some? && GetBookmarkList(db.lists).OneRow? {
      var m := ArticleList(articleId, GetBookmarkList(db.lists).row.id);
      assert Toggle(Toggle(db.memberships, m), m) == db.memberships;
    }
  }

  /** `bookmark`. */
  method Bookmark(s: Session, articleId: int, referer: Option<Redirects.Url>) returns (status: Status)
    requires s.Valid()
    modifies s
    ensures s.Valid()
    ensures (s.Snapshot(), status) == BookmarkResult(old(s.Snapshot()), articleId, referer)
  {
    var article := ArticleById(s.articles, articleId);
    if article.None? {
      return Failed(ArticleNotFound);
    }
    var bookmarkList := GetBookmarkList(s.lists);
    if bookmarkList.NoRow? {
      return Failed(NoBookmarkList);
    } else if bookmarkList.ManyRows? {
      return Failed(MultipleRows);
    }
    var articleList := GetArticleInList(s.memberships, bookmarkList.row.id, article.value.id);
    if articleList.None? {
      var _ := s.AddArticleToList(bookmarkList.row.id, article.value.id);
    } else {
      s.memberships := s.memberships - {articleList.value};
    }
    if referer.None? {
      return Failed(NoReferer);
    }
    status := RedirectTo(Redirects.ValidRedirect(referer.value));
  }

  // ---------------------------------------------------------------------
  // update_feeds: the bulk category form

  /** How `update_feeds` reads one form key: keys not starting with
      "category_" are ignored; the others must split on "_" into exactly
      three parts whose last is all digits, the feed id. */
  datatype KeyKind = OtherKey | MalformedKey | FeedKey(feedId: nat)

  function ParseKey(key: string): (k: KeyKind)
    ensures k.OtherKey? <==> !("category_" <= key)
  {
    if !("category_" <= key) then OtherKey
    else
      var parts := Split(key, '_');
      if |parts| != 3 || !IsDigits(parts[2]) then MalformedKey
      else FeedKey(DigitsValue(parts[2]))
  }

  /** The key the feed settings page sends for a feed: the category part
      holds no "_". */
  lemma ParseKeyRoundTrip(name: string, feedId: nat)
    requires '_' !in name
    ensures ParseKey("category_" + name + "_" + Digits(feedId)) == FeedKey(feedId)
  {
    var key := "category_" + name + "_" + Digits(feedId);
    var parts := ["category", name, Digits(feedId)];
    assert "category_" <= key by {
      assert key[..9] == "category_";
    }
    assert Join(parts, '_') == key by {
      assert Join(parts[2..], '_') == Digits(feedId);
      assert Join(parts[1..], '_') == name + "_" + Digits(feedId);
    }
    forall k | 0 <= k < 3 ensures '_' !in parts[k] {
      if k == 2 {
        forall j | 0 <= j < |Digits(feedId)| ensures Digits(feedId)[j] != '_' {
        }
      }
    }
    SplitJoin(parts, '_');
    DigitsRoundTrip(feedId);
  }

  /** A form value names a category when it is a decimal id of one: SQLite
      compares the text with the integer key numerically. */
  function CategoryByText(categories: seq<Category>, value: string): Option<Category> {
    if IsDigits(value) then CategoryById(categories, DigitsValue(value)) else None
  }

  /** Sets the category of the feed with the id. */
  function SetCategory(feeds: seq<Feed>, feedId: int, categoryId: int): (r: seq<Feed>)
    ensures |r| == |feeds|
    ensures forall i :: 0 <= i < |r| ==>
      r[i] == if feeds[i].id == feedId then feeds[i].(categoryId := Some(categoryId)) else feeds[i]
  {
    seq(|feeds|, i requires 0 <= i < |feeds| =>
      if feeds[i].id == feedId then feeds[i].(categoryId := Some(categoryId)) else feeds[i])
  }

  /** The feeds as the loop leaves them so far, or the error that ended it. */
  datatype FormState = Going(feeds: seq<Feed>) | Stopped(failure: Failure)

  /** One turn of the loop over the form keys. A missing feed is skipped.
      The check `feed.category_id != category_id` compares an integer with
      a string, so it always holds and every found feed is looked at. */
  /** Moving a feed to another category keeps the database's guarantees. */
  lemma SetCategoryKeepsValid(db: Store, feedId: int, categoryId: int)
    requires Valid(db)
    ensures Valid(db.(feeds := SetCategory(db.feeds, feedId, categoryId)))
  {
    FeedIdsKept(db.feeds, SetCategory(db.feeds, feedId, categoryId));
  }

  function FormStep(st: FormState, categories: seq<Category>, key: string, value: string): FormState {
    match st
    case Stopped(_) => st
    case Going(feeds) =>
      match ParseKey(key)
      case OtherKey => st
      case MalformedKey => Stopped(InvalidFormData)
      case FeedKey(feedId) =>
        if FeedById(feeds, feedId).None? then st
        else
          match CategoryByText(categories, value)
          case None => Stopped(FormCategoryNotFound(value))
          case Some(c) => Going(SetCategory(feeds, feedId, c.id))
  }

  function ApplyForm(feeds: seq<Feed>, categories: seq<Category>, form: seq<(string, string)>): FormState
    decreases |form|
  {
    if form == [] then Going(feeds)
    else
      var last := form[|form| - 1];
      FormStep(ApplyForm(feeds, categories, form[..|form| - 1]), categories, last.0, last.1)
  }

  /** `update_feeds`: the form's changes are committed only when every key
      was read without error. */
  function UpdateFeedsFormResult(db: Store, form: seq<(string, string)>): (r: (Store, Status))
    ensures r.1.Failed? ==> r.0 == db
    ensures r.1 == Done || r.1.Failed?
    ensures r.0.(feeds := db.feeds) == db
  {
    match ApplyForm(db.feeds, db.categories, form)
    case Stopped(f) => (db, Failed(f))
    case Going(feeds) => (db.(feeds := feeds), Done)
  }

  /** Once the loop has stopped, the rest of the form is not read. */
  lemma {:induction false} StoppedStays(feeds: seq<Feed>, categories: seq<Category>, form: seq<(string, string)>, n: nat)
    requires n <= |form| && ApplyForm(feeds, categories, form[..n]).Stopped?
    ensures ApplyForm(feeds, categories, form) == ApplyForm(feeds, categories, form[..n])
    decreases |form| - n
  {
    if n < |form| {
      assert form[..n + 1][..n] == form[..n];
      StoppedStays(feeds, categories, form, n + 1);
    } else {
      assert form[..n] == form;
    }
  }

  /** The form only ever moves feeds into existing categories: each feed
      keeps every other field, and its category is the old one or one that
      exists. */
  lemma {:induction false} ApplyFormOnlyRecategorizes(feeds: seq<Feed>, categories: seq<Category>,
                                                      form: seq<(string, string)>)
    requires ApplyForm(feeds, categories, form).Going?
    ensures var fs := ApplyForm(feeds, categories, form).feeds;
      && |fs| == |feeds|
      && forall i :: 0 <= i < |fs| ==>
           && fs[i] == feeds[i].(categoryId := fs[i].categoryId)
           && (fs[i].categoryId == feeds[i].categoryId ||
               (fs[i].categoryId.Some? && HasCategory(categories, fs[i].categoryId.value)))
    decreases |form|
  {
    if form != [] {
      var init := form[..|form| - 1];
      var before := ApplyForm(feeds, categories, init);
      if before.Going? {
        ApplyFormOnlyRecategorizes(feeds, categories, init);
      }
    }
  }

  /** A successful form submission keeps every feed in an existing category. */
  lemma UpdateFeedsFormKeepsCategorized(db: Store, form: seq<(string, string)>)
    requires FeedsCategorized(db)
    ensures FeedsCategorized(UpdateFeedsFormResult(db, form).0)
  {
    if ApplyForm(db.feeds, db.categories, form).Going? {
      ApplyFormOnlyRecategorizes(db.feeds, db.categories, form);
    }
  }

  /** One key of the form, read on the session: the feed's category is set
      from the value, or the failure that stops the loop is returned and
      nothing changes. */
  method ApplyKey(s: Session, key: string, value: string) returns (stop: Option<Failure>)
    requires s.Valid()
    modifies s
    ensures s.Valid() && s.Snapshot() == old(s.Snapshot()).(feeds := s.feeds)
    ensures FormStep(Going(old(s.feeds)), s.categories, key, value)
         == if stop.Some? then Stopped(stop.value) else Going(s.feeds)
  {
    var kind := ParseKey(key);
    if kind.MalformedKey? {
      return Some(InvalidFormData);
    }
    if kind.FeedKey? {
      var feed := FeedById(s.feeds, kind.feedId);
      if feed.Some? {
        var category := CategoryByText(s.categories, value);
        if category.None? {
          return Some(FormCategoryNotFound(value));
        }
        SetCategoryKeepsValid(s.Snapshot(), kind.feedId, category.value.id);
        s.feeds := SetCategory(s.feeds, kind.feedId, category.value.id);
      }
    }
    stop := None;
  }

  /** `update_feeds` (the form arrives as its distinct keys, in the order
      they first appear, each with its last value). */
  method UpdateFeedsForm(s: Session, form: seq<(string, string)>) returns (status: Status)
    requires s.Valid()
    modifies s
    ensures s.Valid()
    ensures (s.Snapshot(), status) == UpdateFeedsFormResult(old(s.Snapshot()), form)
  {
    var start := s.Snapshot();
    var i := 0;
    while i < |form|
      invariant 0 <= i <= |form|
      invariant s.Valid() && s.Snapshot() == start.(feeds := s.feeds)
      invariant ApplyForm(start.feeds, start.categories, form[..i]) == Going(s.feeds)
    {
      assert form[..i + 1][..i] == form[..i];
      var stop := ApplyKey(s, form[i].0, form[i].1);
      if stop.Some? {
        s.Rollback(start);
        StoppedStays(start.feeds, start.categories, form, i + 1);
        return Failed(stop.value);
      }
      i := i + 1;
    }
    assert form[..i] == form;
    status := Done;
  }

  // ---------------------------------------------------------------------
  // add_feed_post

  /** What the feed parser returns for the submitted URL: how many entries
      it found and the channel's link, title and description, each absent
      when the document lacks it. */
  datatype FeedDoc = FeedDoc(entryCount: nat, link: Option<string>, title: Option<string>,
                             description: Option<string>)

  /** `add_feed_post`. Every check happens before anything is committed:
      an empty feed, a URL already subscribed, an ambiguous category name,
      a document without link or title, and an empty category (the feed's
      NOT NULL category column) all leave the database as it was. A
      category name not yet in use is created with description "" and
      order number 0. */
  function AddFeedPostResult(db: Store, uri: string, category: string, doc: FeedDoc, now: Timestamp)
    : (r: (Store, Status))
    ensures r.1.Failed? ==> r.0 == db
    ensures r.1 == Done || r.1.Failed?
    ensures r.0.articles == db.articles && r.0.lists == db.lists && r.0.memberships == db.memberships
    ensures r.1 == Done ==> |r.0.feeds| == |db.feeds| + 1 && r.0.feeds[..|db.feeds|] == db.feeds
  {
    if doc.entryCount == 0 then (db, Failed(NoEntries))
    else
      match GetFeedByUri(db.feeds, uri)
      case OneRow(_) => (db, Failed(FeedAlreadyAdded))
      case ManyRows => (db, Failed(MultipleRows))
      case NoRow =>
        var named := if category == "" then NoRow else GetCategoryByName(db.categories, category);
        if named.ManyRows? then (db, Failed(MultipleRows))
        else if doc.link.None? || doc.title.None? then (db, Failed(MissingFeedField))
        else if category == "" then (db, Failed(IntegrityError))
        else
          var withCategory :=
            if named.OneRow? then db
            else db.(categories := db.categories + [Category(db.nextCategoryId, category, "", 0)],
                     nextCategoryId := db.nextCategoryId + 1);
          var categoryId := if named.OneRow? then named.row.id else db.nextCategoryId;
          var feed := Feed(withCategory.nextFeedId, uri, doc.link.value, doc.title.value,
                           if doc.description.Some? then doc.description.value else "",
                           now, None, Some(categoryId));
          (withCategory.(feeds := withCategory.feeds + [feed], nextFeedId := withCategory.nextFeedId + 1), Done)
  }

  /** Adding a feed never creates a second feed with the same URL. */
  lemma AddFeedPostKeepsUrlsUnique(db: Store, uri: string, category: string, doc: FeedDoc, now: Timestamp)
    requires UniqueFeedUrls(db.feeds)
    ensures UniqueFeedUrls(AddFeedPostResult(db, uri, category, doc, now).0.feeds)
  {
    var r := AddFeedPostResult(db, uri, category, doc, now);
    if r.1 == Done {
      var fs := r.0.feeds;
      forall i, j | 0 <= i < j < |fs| ensures fs[i].feedUrl != fs[j].feedUrl {
        if j == |fs| - 1 {
          assert fs[i] == db.feeds[i];
        }
      }
    }
  }

  /** Submitting the same URL again, after it was added, is refused and
      changes nothing. */
  lemma AddFeedPostTwice(db: Store, uri: string, category: string, doc: FeedDoc, now: Timestamp,
                         category2: string, doc2: FeedDoc, later: Timestamp)
    requires AddFeedPostResult(db, uri, category, doc, now).1 == Done
    requires doc2.entryCount > 0
    ensures var once := AddFeedPostResult(db, uri, category, doc, now).0;
      AddFeedPostResult(once, uri, category2, doc2, later) == (once, Failed(FeedAlreadyAdded))
  {
    var once := AddFeedPostResult(db, uri, category, doc, now).0;
    assert once.feeds[|once.feeds| - 1].feedUrl == uri;
    var f := once.feeds[|once.feeds| - 1];
    var p := FeedUrlIs(uri);
    assert once.feeds == db.feeds + [f];
    FilterAppend(db.feeds, [f], p);
    FilterNone(db.feeds, p);
    assert [f][1..] == [];
    assert Filter(once.feeds, p) == [f];
    assert GetFeedByUri(once.feeds, uri).OneRow? by {
      if UniqueFeedUrls(once.feeds) {
        assert OneOrNone(Filter(once.feeds, p)) == OneRow(f);
      }
    }
  }

  /** An added feed is in the category the form named, unsynced, added at
      `now`, with the next id; if every feed had an existing category
      before, every feed has one after. */
  lemma AddFeedPostNewFeed(db: Store, uri: string, category: string, doc: FeedDoc, now: Timestamp)
    requires AddFeedPostResult(db, uri, category, doc, now).1 == Done
    ensures var after := AddFeedPostResult(db, uri, category, doc, now).0;
      && after.feeds[..|db.feeds|] == db.feeds
      && |after.feeds| == |db.feeds| + 1
      && var f := after.feeds[|db.feeds|];
         && f.id == db.nextFeedId && f.feedUrl == uri && f.addedAt == now && f.lastUpdated.None?
         && FeedInCategoryNamed(after.categories, category)(f)
         && (FeedsCategorized(db) ==> FeedsCategorized(after))
  {
    var after := AddFeedPostResult(db, uri, category, doc, now).0;
    var f := after.feeds[|db.feeds|];
    var named := GetCategoryByName(db.categories, category);
    var c := if named.OneRow? then named.row else Category(db.nextCategoryId, category, "", 0);
    var k :| 0 <= k < |after.categories| && after.categories[k] == c;
    assert after.categories[k].id == f.categoryId.value;
    if FeedsCategorized(db) {
      forall i | 0 <= i < |after.feeds|
        ensures after.feeds[i].categoryId.Some? && HasCategory(after.categories, after.feeds[i].categoryId.value)
      {
        if i < |db.feeds| {
          var m :| 0 <= m < |db.categories| && db.categories[m].id == db.feeds[i].categoryId.value;
          assert after.categories[m] == db.categories[m];
        }
      }
    }
  }

  /** `add_feed_post`. */
  method AddFeedPost(s: Session, uri: string, category: string, doc: FeedDoc, now: Timestamp)
    returns (status: Status)
    requires s.Valid()
    modifies s
    ensures s.Valid()
    ensures (s.Snapshot(), status) == AddFeedPostResult(old(s.Snapshot()), uri, category, doc, now)
  {
    var start := s.Snapshot();
    if doc.entryCount == 0 {
      return Failed(NoEntries);
    }
    var existing := GetFeedByUri(s.feeds, uri);
    if existing.OneRow? {
      return Failed(FeedAlreadyAdded);
    } else if existing.ManyRows? {
      return Failed(MultipleRows);
    }
    var categoryId: Option<int> := None;
    if category != "" {
      var named := GetCategoryByName(s.categories, category);
      if named.ManyRows? {
        return Failed(MultipleRows);
      } else if named.OneRow? {
        categoryId := Some(named.row.id);
      } else {
        var created := s.AddCategory(category, "", 0);
        categoryId := Some(created.id);
      }
    }
    if doc.link.None? || doc.title.None? {
      s.Rollback(start);
      return Failed(MissingFeedField);
    }
    var description := if doc.description.Some? then doc.description.value else "";
    var _ := s.AddFeed(uri, doc.link.value, doc.title.value, description, categoryId, now);
    if categoryId.None? {
      s.Rollback(start);
      return Failed(IntegrityError);
    }
    status := Done;
  }
}
