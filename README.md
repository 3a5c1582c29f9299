# quickfeed, modelled in Dafny

quickfeed is a small self-hosted RSS reader. A database holds five tables:

- feeds;
- articles;
- categories;
- named lists;
- article–list memberships. The list called "Bookmarks" holds the bookmarks.

A background job fetches every feed and inserts the entries it has not seen before. The web pages show the articles ranked newest first, page by page, with a sidebar of feeds grouped by category. Form handlers change the data:

- delete a category;
- move feeds between categories;
- toggle a bookmark;
- subscribe to a feed.

This project models that core as explicit state and proves what each operation does to it:

- **Models**: the tables as `seq`s of rows in primary-key order; a valid database has unique, ascending keys in every table. Memberships are a `set`, because their key is the whole row. A `Store` value holds the tables and the next id of the feed, article and category tables.
- **Api**: the queries of `api.py` as functions. `one_or_none` is a three-way `Lookup`: no row, one row, or more than one, which raises. The updates are methods of the `Session` class, whose fields are the tables. Each method states the whole new database.
- **Ranking**: `sort_articles`, a stable sort on `(-published_at, weight)` with a real-valued weight.
- **Jobs**: `update_feeds` and `entrypoint`. The fetched entries are a map from feed URL to entries, and the clock is a parameter. The session methods are proved equal to a recursive specification. That specification is proved to append only, to deduplicate, to stamp feeds, to yield the progress messages, and to be idempotent.
- **Redirects**: `construct_redirect_url` and `valid_redirect`.
- **Sidebar**: `get_sidebar_data`, including the grouping loop.
- **FeedPage**: the selection, list filter, bookmarked flag, ranking and pagination of `feed_page`, and `bookmarks_page`. Python's `//` and slicing are modelled exactly.
- **Handlers**: `delete_category`, the bulk `update_feeds` form, `bookmark` and `add_feed_post`. Each is a method on the session, proved equal to a function that gives the new database and the response. A request that returns or raises before its commit changes nothing; the session is rolled back. A commit that would write a feed without a category fails, because the column is NOT NULL.

Helper modules:

- **Collections**: filtering, the `Lookup` type, decimal digits, and `str.split` with its inverse `join`.
- **Sorting**: an insertion sort by a total preorder, proved sorted, a permutation, and stable. It also has Python's string ordering.

Where the code and the comments disagree, the model follows the code. `sort_articles` sorts ascending on the weight, so at equal publication times an article of an older feed comes first. Its comment says new feeds are boosted.

## Model

| member | source | states |
|---|---|---|
| Api.FeedById | quickfeed/api.py:18-20 | the feed with the id exists exactly when one is returned, and the result has that id |
| Api.ArticleById | quickfeed/api.py:82-84 | an article is returned exactly when one has the id, and it has that id |
| Api.CategoryById | quickfeed/api.py:154-156 | a category is returned exactly when one has the id, and it has that id |
| Api.ListById | quickfeed/api.py:194-196 | a list is returned exactly when one has the id, and it has that id |
| Api.GetFeedByUri | quickfeed/api.py:14-16 | no row exactly when no feed has the URL; a single row is a feed with that URL; with unique URLs it never raises |
| Api.GetArticle | quickfeed/api.py:87-92 | no row exactly when no article has (feed, unique id); a single row is the only article with that key; with unique keys it never raises |
| Api.GetCategoryByName | quickfeed/api.py:150-152 | no row exactly when no category has the name; a single row is the only category with that name |
| Api.GetDefaultCategory | quickfeed/api.py:41-43 | the lookup is by the exact name "Default" |
| Api.GetBookmarkList | quickfeed/api.py:176-178 | the lookup is by the exact name "Bookmarks" |
| Api.GetArticleInList | quickfeed/api.py:180-182 | a row is returned exactly when the (article, list) membership exists |
| Api.GetArticlesInList | quickfeed/api.py:190-192 | exactly the memberships of the list |
| Api.GetFeedArticles | quickfeed/api.py:49-51 | exactly the articles whose feed id is the feed's |
| Api.GetFeedsByCategoryId | quickfeed/api.py:141-143 | exactly the feeds whose category id is the given one |
| Api.GetFeedsByCategoryName | quickfeed/api.py:53-55 | exactly the feeds whose category has the given name (the join): every returned feed is one, and every such feed is returned |
| Api.FeedDeleted | quickfeed/api.py:27-35 | after the deletion no article and no feed carries the feed id, and every remaining row was there before |
| Api.MarkRead | quickfeed/api.py:123-127 | `update_read` changes only `read_at`, and the article with the id is read at `now` |
| Api.FeedDeletedLeavesNoOrphans | quickfeed/api.py:27-35 | after deleting a feed with its articles, no article of it remains, no article is orphaned, and every other feed, article, category, list and membership is kept |
| Api.DeletedByIdIsDeletedByFeed | quickfeed/api.py:32-33 | deleting the feed's articles one id at a time removes exactly the articles of the feed |
| Api.DeleteStep | quickfeed/api.py:32-33 | each article still to delete is present, and deleting it advances the loop invariant by one id |
| Api.FilteredArticlesAscending | quickfeed/models.py:53 | filtering keeps article ids ascending (unique primary keys) |
| Api.FilteredFeedsAscending | quickfeed/models.py:41 | deleting feeds keeps feed ids unique and ascending |
| Api.FilteredCategoriesAscending | quickfeed/models.py:31 | deleting categories keeps category ids unique and ascending |
| Api.MarkReadOnlyReads | quickfeed/api.py:123-127 | marking read sets `read_at = now` on exactly the article with the id, changes nothing else, and keeps keys unique and ascending |
| Api.Session.constructor | quickfeed/models.py:15-62 | a session opened on a valid database holds exactly that database |
| Api.Session.Rollback | quickfeed/routes.py:252 | rolling back, or leaving a session without commit, restores the committed database |
| Api.Session.AddArticle | quickfeed/api.py:63-80 | appends one unread article with the next id and the given fields; nothing else changes |
| Api.Session.DeleteArticleById | quickfeed/api.py:22-25 | `one()` fails, with no change, when no article has the id; otherwise exactly that article is removed |
| Api.Session.DeleteArticles | quickfeed/api.py:32-33 | the loop deleting a feed's articles removes exactly the given articles |
| Api.Session.DeleteFeedAndArticlesById | quickfeed/api.py:27-35 | returns False and changes nothing when the feed is absent; otherwise the database becomes `FeedDeleted` (the feed's articles, then the feed, removed) |
| Api.Session.UpdateRead | quickfeed/api.py:123-127 | fails with no change when the article is missing; otherwise the articles become `MarkRead` |
| Api.Session.AddFeed | quickfeed/api.py:130-139 | appends a feed with the next id, added at `now`, never synced, with the given category |
| Api.Session.AddCategory | quickfeed/api.py:145-148 | appends a category with the next id and the given name, description and order |
| Api.Session.AddArticleToList | quickfeed/api.py:184-188 | adds the membership; fails exactly when the pair is already a member (the primary key) |
| Ranking.Weight | quickfeed/api.py:102-107 | the weight is at least 0, at most 1 for a feed not added in the future, and 0 exactly when the feed is at least 20 days old |
| Ranking.WeightMonotone | quickfeed/api.py:102-107 | an older feed never weighs more than a newer one |
| Ranking.RankOrderIsTotalPreorder | quickfeed/api.py:112 | Python's tuple comparison of the keys is a total preorder |
| Ranking.SortArticles | quickfeed/api.py:95-115 | the result is a permutation of the input, non-increasing in publication time, and non-decreasing in weight at equal times |
| Ranking.SortArticlesStable | quickfeed/api.py:115 | articles with equal keys keep their input order |
| Ranking.OlderFeedRankedFirst | quickfeed/api.py:107-112 | at equal times an article of a 20-day-old feed comes before one of a feed added now, whatever the input order |
| Jobs.IngestEntry | quickfeed/jobs.py:26-41 | the key is the entry id, else the link; an article is added exactly when no article of the feed has that key; it gets the next id, `now`, and description "" when missing; otherwise nothing changes |
| Jobs.DedupKey | quickfeed/jobs.py:26-29 | the key is the entry's id when it has one; there is a key exactly when the entry has an id or a link |
| Jobs.IngestEntries | quickfeed/jobs.py:25-41 | the entries in order, stopping at the first that raises: articles only grow, and the next id advances by the number added |
| Jobs.IngestEntriesAppends | quickfeed/jobs.py:25-41 | ingestion only appends; every new article belongs to the feed, is unread, added at `now`, and numbered consecutively |
| Jobs.IngestEntriesKeepsIds | quickfeed/api.py:69-79 | article ids stay ascending and below the next id |
| Jobs.IngestEntriesKeepsKeysUnique | quickfeed/jobs.py:30 | the (feed, unique id) key stays unique |
| Jobs.CoveredExtends | quickfeed/jobs.py:30 | appending articles keeps every entry key covered |
| Jobs.IngestEntriesCovers | quickfeed/jobs.py:25-41 | after a run without exception, every entry's key is held by an article of the feed |
| Jobs.IngestEntriesCoveredIsNoOp | quickfeed/jobs.py:30 | entries whose keys are all present add nothing |
| Jobs.SameKeyInsertedOnce | quickfeed/api.py:78-79 | two entries with the same key in one fetch produce exactly one article, because each insert commits before the next check |
| Jobs.IngestFeeds | quickfeed/jobs.py:22-44 | the run keeps the number of feeds |
| Jobs.NextDb | quickfeed/jobs.py:25-44 | after one feed: feed `i` is stamped `now`, articles only grow, and categories, lists, memberships and the other counters are kept |
| Jobs.UpdateFeedsRun | quickfeed/jobs.py:20-44 | the whole job keeps the number of feeds and first yields "Updating all feeds" |
| Jobs.Stamp | quickfeed/jobs.py:43 | only feed `i` changes, and only its last-updated time, which becomes `now` |
| Jobs.FailingFeed | quickfeed/jobs.py:22-44 | the feed at which the run raises lies within the remaining feeds |
| Jobs.FeedsMatchHasFeed | quickfeed/jobs.py:43 | stamping feeds does not change which feed ids exist |
| Jobs.IngestFeedsFrame | quickfeed/jobs.py:22-44 | a run changes no category, list or membership, no feed except by its stamp, and no feed before the start |
| Jobs.IngestFeedsAppends | quickfeed/jobs.py:22-44 | existing articles are never modified; new ones are numbered consecutively, belong to existing feeds, are unread and added at `now` |
| Jobs.IngestFeedsKeepsInvariants | quickfeed/jobs.py:22-44 | a run keeps the database valid, keys unique, and no article orphaned |
| Jobs.AbsorbKeepsInvariants | quickfeed/jobs.py:25-41 | ingesting one feed keeps the database valid, keys unique and no article orphaned |
| Jobs.NextDbKeepsInvariants | quickfeed/jobs.py:25-44 | ingesting and stamping one feed keeps the database valid, keys unique and no article orphaned |
| Jobs.StampKeepsValid | quickfeed/jobs.py:43 | stamping a feed keeps the database valid |
| Jobs.IngestFeedsSucceeds | quickfeed/jobs.py:21-44 | without exception the progress is, for each feed in order, its site URL then "Done", and every feed is stamped `now` |
| Jobs.IngestFeedsFailsProgress | quickfeed/jobs.py:22-44 | on an exception the run stops at the failing feed: it yielded the earlier feeds' URL and "Done" lines, then that feed's URL but not its "Done" |
| Jobs.IngestFeedsFailsStamps | quickfeed/jobs.py:22-44 | on an exception only the feeds before the failing one are stamped; that feed and all later ones are left unchanged |
| Jobs.IngestFeedsCovers | quickfeed/jobs.py:22-44 | after a run without exception, every fetched entry of every feed has its article |
| Jobs.IngestFeedsCoveredOnlyStamps | quickfeed/jobs.py:22-44 | when every fetched entry is already held, a run at any time succeeds, inserts nothing, yields every feed's lines, and only stamps the remaining feeds with that time |
| Jobs.UpdateFeedsRerun | quickfeed/jobs.py:20-44 | a later run, at any time, over unchanged entries succeeds, yields the same messages, adds no article, keeps the next id, and only restamps every feed with the new time |
| Jobs.DoneLinesMatch | quickfeed/jobs.py:23 | stamping does not change the yielded site URLs |
| Jobs.UpdateFeedsIdempotent | quickfeed/jobs.py:20-44 | a second run over unchanged entries at the same time yields the same and changes nothing |
| Jobs.IngestFeedsKeepsKeysUnique | quickfeed/jobs.py:30 | a whole run keeps the dedup key unique |
| Jobs.IngestEntriesStep | quickfeed/jobs.py:25-41 | one entry more advances the specification by one step |
| Jobs.IngestEntryInto | quickfeed/jobs.py:26-41 | one entry on the session: the result and the new articles and next id are those of the one-entry specification |
| Jobs.IngestFeedEntries | quickfeed/jobs.py:25-41 | the entry loop on the session equals the ingestion specification, committing each insert |
| Jobs.UpdateFeeds | quickfeed/jobs.py:20-44 | the job on the session yields and stores exactly what `UpdateFeedsRun` specifies |
| Jobs.Entrypoint | quickfeed/jobs.py:11-17 | draining the generator runs the whole job, and on success stamps every feed |
| Redirects.ConstructRedirectUrl | quickfeed/routes.py:22-26 | the URL starts with the path, and is the path alone exactly when the query is empty |
| Redirects.ValidRedirect | quickfeed/routes.py:29-47 | the result is "/feeds" or the request's own path with its query |
| Redirects.RedirectUrlRoundTrip | quickfeed/routes.py:22-26 | the built URL splits back at its first `?` into the path and the query, and starts with the path |
| Redirects.ValidRedirectCharacterized | quickfeed/routes.py:29-47 | the path and query are kept exactly when the path is "/bookmarks" or starts with "/feed"; otherwise the result is "/feeds"; the result always starts with "/feed" or "/bookmarks" |
| Sorting.SortBySorted | quickfeed/routes.py:74 | `sorted` by a total preorder returns a sorted sequence |
| Sorting.SortByStable | quickfeed/routes.py:82-85 | `sorted` is stable: elements with equal keys keep their order |
| Sorting.SortBy | quickfeed/routes.py:74 | `sorted` returns a rearrangement of its input |
| Sorting.StringLeTotal | quickfeed/routes.py:74 | Python's string comparison is total |
| Sorting.StringLeTrans | quickfeed/routes.py:74 | Python's string comparison is transitive |
| Sidebar.TitleOrderIsTotalPreorder | quickfeed/routes.py:74 | ordering feeds by title is a total preorder |
| Sidebar.RowsOf | quickfeed/routes.py:63-75 | rows exist exactly when every feed has an existing category; each row is its feed with that category's name and order number |
| Sidebar.GroupIndex | quickfeed/routes.py:78 | finds a group with the name exactly when one exists |
| Sidebar.AddRow | quickfeed/routes.py:78-80 | appending a row creates a group exactly when its name is new, and otherwise extends only the group of that name |
| Sidebar.GroupRows | quickfeed/routes.py:76-80 | there are never more groups than rows |
| Sidebar.GroupRowsDistinct | quickfeed/routes.py:76-80 | the dict never holds two groups with one name |
| Sidebar.GroupRowsContents | quickfeed/routes.py:76-80 | each group holds exactly the rows of its name, in order, and is never empty |
| Sidebar.ContentsStep | quickfeed/routes.py:78-80 | one appended row keeps each group equal to the rows of its name |
| Sidebar.GroupRowsCover | quickfeed/routes.py:76-80 | every row's category has a group |
| Sidebar.GroupByCategory | quickfeed/routes.py:76-80 | the grouping loop builds exactly `GroupRows` |
| Sidebar.GroupOrderIsTotalPreorder | quickfeed/routes.py:82-85 | ordering by (first feed's category order, name) is a total preorder |
| Sidebar.FeedsOf | quickfeed/routes.py:63-75 | the feeds of the rows, one per row |
| Sidebar.GetSidebarData | quickfeed/routes.py:62-88 | the handler on the session returns exactly `SidebarData` |
| Sidebar.SidebarData | quickfeed/routes.py:62-88 | the sidebar exists exactly when the rows do, with at most one group per feed |
| Sidebar.SidebarDefined | quickfeed/routes.py:71 | the sidebar exists exactly when every feed has an existing category |
| Sidebar.SidebarRowsSorted | quickfeed/routes.py:74 | every feed appears exactly once among the rows, and the rows are sorted by title |
| Sidebar.SidebarGroupsOrdered | quickfeed/routes.py:82-85 | the groups are sorted by (first feed's order number, category name) and are a rearrangement of the grouping |
| Sidebar.SidebarGroupContents | quickfeed/routes.py:76-85 | each shown group holds exactly the feeds of its category name, sorted by title, and is non-empty |
| Sidebar.GroupOfRows | quickfeed/routes.py:76-80 | a group built from title-sorted rows holds exactly the rows of its name, in title order, and is never empty |
| FeedPage.FloorDiv | quickfeed/routes.py:178 | Python's `//` rounds toward negative infinity |
| FeedPage.SliceIndex | quickfeed/routes.py:179 | a slice bound within the list is itself, and every bound lands within the list |
| FeedPage.WithFeed | quickfeed/routes.py:137 | pairs each article with its feed |
| FeedPage.FeedArticles | quickfeed/routes.py:137 | every article on the page belongs to one of the chosen feeds |
| FeedPage.FeedArticlesComplete | quickfeed/routes.py:137 | every article of every chosen feed is on the page |
| FeedPage.ListIds | quickfeed/routes.py:145-147 | exactly the ids of the list's member articles |
| FeedPage.SelectedInList | quickfeed/routes.py:139-148 | with a list, an article is kept exactly when it is of a chosen feed and a member of the list |
| FeedPage.Views | quickfeed/routes.py:156-167 | one view per ranked article, with its fields and bookmarked flag |
| FeedPage.FeedPageView | quickfeed/routes.py:123-182 | the page fails exactly for a missing list, then two "Bookmarks" lists, then `per_page == 0`, never for a missing bookmark list; a shown page carries the requested page, size and category heading ("All" by default) |
| FeedPage.FeedPageRanked | quickfeed/routes.py:150-182 | the shown articles are the slice of the selected articles ranked newest first, each flagged bookmarked exactly when it is in the bookmark list |
| FeedPage.PageSlice | quickfeed/routes.py:179 | page `p` is items `(p-1)*per_page` up to `p*per_page`, fewer on the last page, empty beyond it |
| FeedPage.PageHolds | quickfeed/routes.py:179 | item `i` is item `i % per_page` of page `i // per_page + 1`, so the pages cover the list |
| FeedPage.TotalPagesFloor | quickfeed/routes.py:178 | `total_pages` is the number of full pages, the floor |
| FeedPage.PySliceIn | quickfeed/routes.py:179 | a slice holds only elements of the list |
| FeedPage.ViewsAllBookmarked | quickfeed/routes.py:163 | articles whose ids are all bookmarked are all flagged |
| FeedPage.BookmarksPageAllBookmarked | quickfeed/routes.py:638-646 | the bookmarks page needs the bookmark list; everything it shows is flagged bookmarked; every bookmarked article is selected |
| FeedPage.BookmarksPage | quickfeed/routes.py:638-646 | a missing bookmark list fails (`None.id`), two lists named "Bookmarks" fail, and a shown page is headed "All" and names its list |
| Handlers.Reassigned | quickfeed/routes.py:528-530 | exactly the category's feeds get the default category |
| Handlers.Orphaned | quickfeed/models.py:34 | exactly the feeds still in the deleted category lose their category |
| Handlers.DeleteCategoryRefused | quickfeed/routes.py:528-533 | deleting an existing category fails at commit exactly when it has feeds and "Default" is missing or is the category itself |
| Handlers.DeleteCategoryMovesFeeds | quickfeed/routes.py:516-535 | after deletion the category is gone, no feed refers to it, its feeds are in "Default", no other feed changed, and every feed still has a category |
| Handlers.ReassignFeeds | quickfeed/routes.py:528-530 | the reassignment loop leaves the feeds as `Reassigned` |
| Handlers.DeleteCategory | quickfeed/routes.py:516-535 | the handler on the session equals `DeleteCategoryResult`; a missing category changes nothing |
| Handlers.DeleteCategoryResult | quickfeed/routes.py:516-535 | every refusal leaves the database as it was; on success no category has the id, and the feeds and articles are kept in number |
| Handlers.Toggle | quickfeed/routes.py:628-632 | the membership flips, and every other membership stays |
| Handlers.BookmarkFlips | quickfeed/routes.py:615-635 | only the article's bookmark membership flips; a missing article or list changes nothing |
| Handlers.BookmarkTwice | quickfeed/routes.py:628-634 | toggling twice restores the database |
| Handlers.Bookmark | quickfeed/routes.py:615-635 | the handler on the session equals `BookmarkResult` |
| Handlers.BookmarkResult | quickfeed/routes.py:615-635 | only memberships change; every refusal except the missing Referer, which raises after the commit, changes nothing |
| Handlers.ParseKeyRoundTrip | quickfeed/routes.py:543-552 | the key `category_<name>_<id>` with no "_" in the name parses back to the feed id |
| Handlers.ParseKey | quickfeed/routes.py:543-552 | a key is ignored exactly when it does not start with "category_" |
| Handlers.SetCategory | quickfeed/routes.py:560 | exactly the feed with the id gets the category |
| Handlers.StoppedStays | quickfeed/routes.py:545-560 | after an error the rest of the form is not read |
| Handlers.ApplyFormOnlyRecategorizes | quickfeed/routes.py:541-563 | the form changes only feeds' categories, each to its old one or an existing one |
| Handlers.UpdateFeedsFormKeepsCategorized | quickfeed/routes.py:538-564 | a successful form keeps every feed in an existing category |
| Handlers.UpdateFeedsForm | quickfeed/routes.py:538-564 | the handler on the session equals `UpdateFeedsFormResult`; an invalid key or unknown category changes nothing |
| Handlers.UpdateFeedsFormResult | quickfeed/routes.py:538-564 | only feeds change, and a refused form changes nothing |
| Handlers.ApplyKey | quickfeed/routes.py:543-561 | one form key on the session: the feed gets the category, or the failure that stops the loop is returned with no change |
| Handlers.AddFeedPostKeepsUrlsUnique | quickfeed/routes.py:290-291 | adding a feed never creates a second feed with the same URL |
| Handlers.AddFeedPostTwice | quickfeed/routes.py:290-291 | the same URL submitted again is refused and changes nothing |
| Handlers.AddFeedPostNewFeed | quickfeed/routes.py:294-308 | the new feed is appended with the next id, the URL, `now`, never synced, in the category the form named; existing feeds are kept |
| Handlers.AddFeedPost | quickfeed/routes.py:279-317 | the handler on the session equals `AddFeedPostResult`; every refusal changes nothing |
| Handlers.AddFeedPostResult | quickfeed/routes.py:279-317 | every refusal changes nothing; articles, lists and memberships never change; on success exactly one feed is appended |
| Collections.Filter | quickfeed/api.py:142 | a `select ... filter` keeps exactly the matching rows |
| Collections.DigitsRoundTrip | quickfeed/routes.py:550-553 | `int()` of the decimal spelling of `n` is `n` |
| Collections.SplitJoin | quickfeed/routes.py:544 | splitting a join of separator-free parts gives the parts back |
| Collections.JoinSplit | quickfeed/routes.py:544 | joining a split gives the string back |
| Collections.Split | quickfeed/routes.py:544 | `str.split` gives at least one part, and no part holds the separator |

## Left out

- Feed fetching and parsing, done by the feedparser library, is not modelled. The job takes the parsed entries as a map from feed URL to entries. `add_feed_post` takes a summary of the parsed document.
- Clocks are not modelled. Every `datetime.now()` read within one operation is collapsed into one `now` parameter, and timestamps are integer seconds.
- The weight is a `real`, so IEEE floating-point rounding is not modelled.
- SQLAlchemy internals are not modelled: sessions, identity maps, lazy loading and autoflush. The model assumes a `select` without `ORDER BY` returns rows in primary-key order.
- The `created_at`/`updated_at` columns carry no behaviour and are not modelled.
- HTML rendering, templates, `templated_response`, the redirect responses and their messages, `reload_feed` streaming, and background tasks are left out. They are HTTP and UI plumbing.
- quickfeed/server.py, run_server.py, utils.py and basic_auth.py are left out. They are web wiring, configuration and logging.
- Concurrency between ingestion runs and requests is left out. The code has no mutual exclusion either.
- Constraint enforcement is modelled only where a handler relies on it: the NOT NULL `category_id` at a handler's commit. Foreign keys are not enforced, as in SQLite by default.
- Api.Session.AddFeed does not check NOT NULL. The handlers that call it do, at their commit.
- Deleting a feed's articles does not delete their list memberships, in the code as in the model.
- `get_last_updated`, the "last updated" line of the feed page, is left out. It only feeds the template.
- Form and header parsing is not modelled. Form values arrive already converted: article and category ids as integers, the Referer as a normalised path and query.
- SQLite's conversion of text to integer when comparing keys is simplified. A form value names a category only when it is ASCII digits, so signs, spaces and decimals are not accepted.
- Handlers.UpdateFeedsForm: the form is its distinct keys, in the order they first appear, each with its last value, which is what the form's `get` returns for a repeated key. Repeated keys themselves are not modelled.
- Handlers.ParseKey: `str.isdigit` also accepts non-ASCII digits. The model accepts only ASCII `0`–`9`.
- Redirects.ValidRedirect: the `'/'` branch, for a path that fails to re-decode as UTF-8, cannot be reached by a string of Unicode scalar values and is not modelled.
- `urlparse` and `normpath` are not modelled. The path arrives normalised.
- Sidebar.RowsOf: a feed without a category raises at `feed.category.name`, before the `-1` guard on the next line. The model makes the whole sidebar fail and does not model the dead guard.
- The read-only pages `feeds_page`, `feed_details` and `categories_page` are left out. They only render data.
- The routes `update_feed`, `update_category`, `delete_feed`, `add_category_post` and `redirect` change the database and commit, but are left out of this model. `delete_feed` and `redirect` call the modelled `delete_feed_and_articles_by_id` and `update_read`; `update_feed` and `update_category` assign feed and category fields directly, and `add_category_post` calls `add_category`.
- Of the feed page's route parameters, `page` and `per_page` are plain integers. FastAPI's validation of the query string is not modelled.
- Api.Session.AddArticle, Api.Session.AddFeed and Api.Session.AddCategory take ids from counters that only grow. SQLite gives an `INTEGER PRIMARY KEY` without `AUTOINCREMENT` the largest id in use plus one, so the id of the newest feed or article is reused after it is deleted. Because the memberships of deleted articles are kept, a new article that reuses a bookmarked article's id shows as bookmarked. The model does not capture this reuse.
