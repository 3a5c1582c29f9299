/** The sidebar of every page (`get_sidebar_data`, quickfeed/routes.py): the
    feeds, sorted by title, grouped under the name of their category; the
    groups are ordered by the order number of the category of their first
    feed, then by name. */
module Sidebar {
  import opened Collections
  import opened Models
  import opened Sorting
  import opened Api

  /** A feed with the name and order number of its category. */
  datatype Row = Row(feed: Feed, categoryName: string, categoryOrder: int)

  /** The feeds under one category name, in sidebar order. */
  datatype Group = Group(name: string, rows: seq<Row>)

  function TitleOrder(): (Feed, Feed) -> bool {
    (f: Feed, g: Feed) => StringLe(f.title, g.title)
  }

  lemma TitleOrderIsTotalPreorder()
    ensures TotalPreorder(TitleOrder())
  {
    forall a: Feed, b: Feed ensures TitleOrder()(a, b) || TitleOrder()(b, a) {
      StringLeTotal(a.title, b.title);
    }
    forall a: Feed, b: Feed, c: Feed | TitleOrder()(a, b) && TitleOrder()(b, c)
      ensures TitleOrder()(a, c)
    {
      StringLeTrans(a.title, b.title, c.title);
    }
  }

  /** The rows of the feeds in the given order. Reading `feed.category.name`
      raises when the feed has no category, so one such feed fails the
      whole sidebar. */
  function RowsOf(feeds: seq<Feed>, categories: seq<Category>): (r: Option<seq<Row>>)
    ensures r.Some? <==> forall i :: 0 <= i < |feeds| ==>
      feeds[i].categoryId.Some? && CategoryById(categories, feeds[i].categoryId.value).Some?
    ensures r.Some? ==> |r.value| == |feeds| && forall i :: 0 <= i < |feeds| ==>
      r.value[i].feed == feeds[i] &&
      r.value[i].categoryName == CategoryById(categories, feeds[i].categoryId.value).value.name &&
      r.value[i].categoryOrder == CategoryById(categories, feeds[i].categoryId.value).value.orderNumber
  {
    if feeds == [] then Some([])
    else
      var f := feeds[0];
      var rest := RowsOf(feeds[1..], categories);
      if f.categoryId.None? || CategoryById(categories, f.categoryId.value).None? then None
      else if rest.None? then
        None
      else
        var c := CategoryById(categories, f.categoryId.value).value;
        Some([Row(f, c.name, c.orderNumber)] + rest.value)
  }

  // ---------------------------------------------------------------------
  // Grouping: a dict from category name to rows, in insertion order.

  /** The position of the group with the name, if there is one. */
  function GroupIndex(groups: seq<Group>, name: string): (k: Option<nat>)
    ensures k.Some? ==> k.value < |groups| && groups[k.value].name == name
    ensures k.None? ==> forall i :: 0 <= i < |groups| ==> groups[i].name != name
  {
    if groups == [] then None
    else if groups[|groups| - 1].name == name then Some(|groups| - 1)
    else GroupIndex(groups[..|groups| - 1], name)
  }

  /** `categories[name].append(row)`, creating the entry when missing. */
  function AddRow(groups: seq<Group>, row: Row): (r: seq<Group>)
    ensures |r| == |groups| + 1 <==> GroupIndex(groups, row.categoryName).None?
    ensures |r| == |groups| || |r| == |groups| + 1
    ensures |r| == |groups| + 1 ==> r[|groups|] == Group(row.categoryName, [row])
    ensures forall k :: 0 <= k < |groups| ==> r[k].name == groups[k].name
    ensures DistinctNames(groups) ==> forall k :: 0 <= k < |groups| ==>
      r[k].rows == if groups[k].name == row.categoryName then groups[k].rows + [row] else groups[k].rows
  {
    match GroupIndex(groups, row.categoryName)
    case None => groups + [Group(row.categoryName, [row])]
    case Some(k) => groups[k := groups[k].(rows := groups[k].rows + [row])]
  }

  /** The dict the grouping loop builds from the rows. */
  function GroupRows(rows: seq<Row>): (groups: seq<Group>)
    ensures |groups| <= |rows|
  {
    if rows == [] then [] else AddRow(GroupRows(rows[..|rows| - 1]), rows[|rows| - 1])
  }

  function InCategory(name: string): Row -> bool {
    (r: Row) => r.categoryName == name
  }

  predicate DistinctNames(groups: seq<Group>) {
    forall i, j :: 0 <= i < j < |groups| ==> groups[i].name != groups[j].name
  }

  /** The grouping never makes two groups with the same name. */
  lemma {:induction false} GroupRowsDistinct(rows: seq<Row>)
    ensures DistinctNames(GroupRows(rows))
    decreases |rows|
  {
    if rows != [] {
      GroupRowsDistinct(rows[..|rows| - 1]);
    }
  }

  /** Each group holds exactly the rows of its name, in their original
      order, and so is never empty. */
  lemma {:induction false} GroupRowsContents(rows: seq<Row>)
    ensures forall k :: 0 <= k < |GroupRows(rows)| ==>
      GroupRows(rows)[k].rows == Filter(rows, InCategory(GroupRows(rows)[k].name)) &&
      GroupRows(rows)[k].rows != []
    decreases |rows|
  {
    if rows != [] {
      var init := rows[..|rows| - 1];
      var last := rows[|rows| - 1];
      assert rows == init + [last];
      GroupRowsContents(init);
      GroupRowsDistinct(init);
      GroupRowsCover(init);
      var before := GroupRows(init);
      assert forall j :: 0 <= j < |before| ==>
        before[j].rows == Filter(init, InCategory(before[j].name)) && before[j].rows != [];
      var groups := GroupRows(rows);
      forall k | 0 <= k < |groups|
        ensures groups[k].rows == Filter(rows, InCategory(groups[k].name)) && groups[k].rows != []
      {
        ContentsStep(init, before, last, k);
      }
    }
  }

  /** One row more: if `before` groups `init`, the group at `k` after
      adding `last` holds the rows of `init + [last]` with its name. */
  lemma ContentsStep(init: seq<Row>, before: seq<Group>, last: Row, k: nat)
    requires DistinctNames(before)
    requires forall i :: 0 <= i < |init| ==> GroupIndex(before, init[i].categoryName).Some?
    requires forall j :: 0 <= j < |before| ==>
      before[j].rows == Filter(init, InCategory(before[j].name)) && before[j].rows != []
    requires k < |AddRow(before, last)|
    ensures var g := AddRow(before, last)[k];
      g.rows == Filter(init + [last], InCategory(g.name)) && g.rows != []
  {
    var g := AddRow(before, last)[k];
    var p := InCategory(g.name);
    FilterAppend(init, [last], p);
    assert Filter([last], p) == if p(last) then [last] else [] by {
      assert [last][1..] == [];
    }
    if k == |before| {
      forall j | 0 <= j < |init| ensures !p(init[j]) {
        var m := GroupIndex(before, init[j].categoryName).value;
        assert before[m].name == init[j].categoryName;
      }
      FilterNone(init, p);
    } else {
      assert g.name == before[k].name;
    }
  }

  /** Every row's category name has a group. */
  lemma {:induction false} GroupRowsCover(rows: seq<Row>)
    ensures forall i :: 0 <= i < |rows| ==> GroupIndex(GroupRows(rows), rows[i].categoryName).Some?
    decreases |rows|
  {
    if rows != [] {
      var init := rows[..|rows| - 1];
      var last := rows[|rows| - 1];
      var before := GroupRows(init);
      var groups := GroupRows(rows);
      GroupRowsCover(init);
      forall i | 0 <= i < |rows| ensures GroupIndex(groups, rows[i].categoryName).Some? {
        if i < |init| {
          assert rows[i] == init[i];
          var k := GroupIndex(before, init[i].categoryName).value;
          assert groups[k].name == rows[i].categoryName;
        } else if GroupIndex(before, last.categoryName).Some? {
          var k := GroupIndex(before, last.categoryName).value;
          assert groups[k].name == last.categoryName;
        } else {
          assert groups[|before|].name == last.categoryName;
        }
      }
    }
  }

  /** The grouping loop of `get_sidebar_data`. */
  method GroupByCategory(rows: seq<Row>) returns (groups: seq<Group>)
    ensures groups == GroupRows(rows)
  {
    groups := [];
    var i := 0;
    while i < |rows|
      invariant 0 <= i <= |rows|
      invariant groups == GroupRows(rows[..i])
    {
      assert rows[..i + 1][..i] == rows[..i];
      var row := rows[i];
      var k := GroupIndex(groups, row.categoryName);
      if k.None? {
        groups := groups + [Group(row.categoryName, [row])];
      } else {
        groups := groups[k.value := groups[k.value].(rows := groups[k.value].rows + [row])];
      }
      i := i + 1;
    }
    assert rows[..i] == rows;
  }

  // ---------------------------------------------------------------------
  // Ordering the groups

  /** The order number of the category of a group's first feed. */
  function FirstOrder(g: Group): int {
    if g.rows == [] then 0 else g.rows[0].categoryOrder
  }

  function GroupOrder(): (Group, Group) -> bool {
    (g: Group, h: Group) => FirstOrder(g) < FirstOrder(h) || (FirstOrder(g) == FirstOrder(h) && StringLe(g.name, h.name))
  }

  lemma GroupOrderIsTotalPreorder()
    ensures TotalPreorder(GroupOrder())
  {
    forall a: Group, b: Group ensures GroupOrder()(a, b) || GroupOrder()(b, a) {
      StringLeTotal(a.name, b.name);
    }
    forall a: Group, b: Group, c: Group | GroupOrder()(a, b) && GroupOrder()(b, c)
      ensures GroupOrder()(a, c)
    {
      if FirstOrder(a) == FirstOrder(b) == FirstOrder(c) {
        StringLeTrans(a.name, b.name, c.name);
      }
    }
  }

  /** The rows of all feeds, sorted by title. */
  function SidebarRows(db: Store): Option<seq<Row>> {
    RowsOf(SortBy(db.feeds, TitleOrder()), db.categories)
  }

  /** The sidebar: None when a feed's category is missing. */
  function SidebarData(db: Store): (r: Option<seq<Group>>)
    ensures r.Some? <==> SidebarRows(db).Some?
    ensures r.Some? ==> |r.value| <= |db.feeds|
  {
    match SidebarRows(db)
    case None => None
    case Some(rows) => Some(SortBy(GroupRows(rows), GroupOrder()))
  }

  function RowTitleOrder(): (Row, Row) -> bool {
    (a: Row, b: Row) => StringLe(a.feed.title, b.feed.title)
  }

  /** The feeds the rows show. */
  function FeedsOf(rows: seq<Row>): (r: seq<Feed>)
    ensures |r| == |rows| && forall i :: 0 <= i < |rows| ==> r[i] == rows[i].feed
  {
    seq(|rows|, i requires 0 <= i < |rows| => rows[i].feed)
  }

  /** `get_sidebar_data` on the session's database. */
  method GetSidebarData(s: Session) returns (r: Option<seq<Group>>)
    ensures r == SidebarData(s.Snapshot())
  {
    var sorted := SortBy(s.feeds, TitleOrder());
    var rows := RowsOf(sorted, s.categories);
    if rows.None? {
      return None;
    }
    var groups := GroupByCategory(rows.value);
    r := Some(SortBy(groups, GroupOrder()));
  }

  /** The sidebar exists exactly when every feed has an existing category. */
  lemma SidebarDefined(db: Store)
    ensures SidebarData(db).Some? <==> forall i :: 0 <= i < |db.feeds| ==>
      db.feeds[i].categoryId.Some? && CategoryById(db.categories, db.feeds[i].categoryId.value).Some?
  {
    var sorted := SortBy(db.feeds, TitleOrder());
    assert multiset(sorted) == multiset(db.feeds);
    if RowsOf(sorted, db.categories).Some? {
      forall i | 0 <= i < |db.feeds|
        ensures db.feeds[i].categoryId.Some? && CategoryById(db.categories, db.feeds[i].categoryId.value).Some?
      {
        assert db.feeds[i] in multiset(sorted);
        var j :| 0 <= j < |sorted| && sorted[j] == db.feeds[i];
      }
    } else {
      var j :| 0 <= j < |sorted| && !(sorted[j].categoryId.Some? && CategoryById(db.categories, sorted[j].categoryId.value).Some?);
      assert sorted[j] in multiset(db.feeds);
    }
  }

  /** Every feed appears in the sidebar's rows exactly once, and the rows
      are sorted by title. */
  lemma SidebarRowsSorted(db: Store)
    requires SidebarRows(db).Some?
    ensures multiset(FeedsOf(SidebarRows(db).value)) == multiset(db.feeds)
    ensures SortedBy(SidebarRows(db).value, RowTitleOrder())
  {
    var sorted := SortBy(db.feeds, TitleOrder());
    var rows := SidebarRows(db).value;
    assert FeedsOf(rows) == sorted;
    TitleOrderIsTotalPreorder();
    SortBySorted(db.feeds, TitleOrder());
    forall i, j | 0 <= i < j < |rows| ensures RowTitleOrder()(rows[i], rows[j]) {
      assert TitleOrder()(sorted[i], sorted[j]);
    }
  }

  /** The groups are ordered by (order number of the first feed's category,
      name), and they are the groups of the rows, rearranged. */
  lemma SidebarGroupsOrdered(db: Store)
    requires SidebarData(db).Some?
    ensures SidebarRows(db).Some?
    ensures SortedBy(SidebarData(db).value, GroupOrder())
    ensures multiset(SidebarData(db).value) == multiset(GroupRows(SidebarRows(db).value))
  {
    GroupOrderIsTotalPreorder();
    SortBySorted(GroupRows(SidebarRows(db).value), GroupOrder());
  }

  /** Each group of the sidebar holds, sorted by title, exactly the rows of
      its category name, and is never empty. */
  lemma SidebarGroupContents(db: Store)
    requires SidebarData(db).Some?
    ensures SidebarRows(db).Some?
    ensures var groups := SidebarData(db).value;
      forall k :: 0 <= k < |groups| ==>
        && groups[k].rows != []
        && groups[k].rows == Filter(SidebarRows(db).value, InCategory(groups[k].name))
        && SortedBy(groups[k].rows, RowTitleOrder())
  {
    var rows := SidebarRows(db).value;
    var grouped := GroupRows(rows);
    var groups := SidebarData(db).value;
    assert groups == SortBy(grouped, GroupOrder());
    SidebarRowsSorted(db);
    forall k | 0 <= k < |groups|
      ensures groups[k].rows != [] && groups[k].rows == Filter(rows, InCategory(groups[k].name))
      ensures SortedBy(groups[k].rows, RowTitleOrder())
    {
      assert groups[k] in multiset(grouped);
      GroupOfRows(rows, groups[k]);
    }
  }

  /** A group built from rows sorted by title holds, in that order, exactly
      the rows of its name, and is never empty. */
  lemma GroupOfRows(rows: seq<Row>, g: Group)
    requires g in GroupRows(rows)
    requires SortedBy(rows, RowTitleOrder())
    ensures g.rows != [] && g.rows == Filter(rows, InCategory(g.name))
    ensures SortedBy(g.rows, RowTitleOrder())
  {
    GroupRowsContents(rows);
    var m :| 0 <= m < |GroupRows(rows)| && GroupRows(rows)[m] == g;
    FilterSorted(rows, RowTitleOrder(), InCategory(g.name));
  }
}
