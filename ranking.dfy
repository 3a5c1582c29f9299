/** Article ranking (`sort_articles`, quickfeed/api.py): a stable sort on
    the key (-published_at, weight), where the weight of an article is
    max(0, 1 - 0.05 * age of its feed in days). The clock is read once per
    call, so `now` is a parameter. */
module Ranking {
  import opened Collections
  import opened Models
  import opened Sorting

  /** An article with the feed it belongs to (the ORM's `article.feed`). */
  datatype Ranked = Ranked(article: Article, feed: Feed)

  const SecondsPerDay: int := 86400
  const DecayFactor: real := 0.05

  /** Days (fractional) between the feed's creation and `now`. */
  function FeedAgeDays(now: Timestamp, addedAt: Timestamp): real {
    (now - addedAt) as real / SecondsPerDay as real
  }

  /** The weight decays linearly from 1 for a feed added now to 0 for a feed
      twenty days old, and stays 0 from then on. */
  function Weight(now: Timestamp, addedAt: Timestamp): (w: real)
    ensures w >= 0.0
    ensures addedAt <= now ==> w <= 1.0
    ensures w == 0.0 <==> now - addedAt >= 20 * SecondsPerDay
  {
    var raw := 1.0 - DecayFactor * FeedAgeDays(now, addedAt);
    if raw > 0.0 then raw else 0.0
  }

  /** A feed added earlier never weighs more than one added later. */
  lemma WeightMonotone(now: Timestamp, older: Timestamp, newer: Timestamp)
    requires older <= newer
    ensures Weight(now, older) <= Weight(now, newer)
  {
  }

  /** The tuple `(-published_at.timestamp(), weight)` that Python compares. */
  datatype SortKey = SortKey(negPublished: int, weight: real)

  function RankKey(x: Ranked, now: Timestamp): SortKey {
    SortKey(-x.article.publishedAt, Weight(now, x.feed.addedAt))
  }

  /** Python's lexicographic comparison of two key tuples. */
  predicate KeyLe(a: SortKey, b: SortKey) {
    a.negPublished < b.negPublished || (a.negPublished == b.negPublished && a.weight <= b.weight)
  }

  function RankOrder(now: Timestamp): (Ranked, Ranked) -> bool {
    (x: Ranked, y: Ranked) => KeyLe(RankKey(x, now), RankKey(y, now))
  }

  lemma RankOrderIsTotalPreorder(now: Timestamp)
    ensures TotalPreorder(RankOrder(now))
  {
  }

  /** The ranked list: a permutation of the input, newest first, and at
      equal publication times the SMALLER weight (the older feed) first. */
  function SortArticles(xs: seq<Ranked>, now: Timestamp): (r: seq<Ranked>)
    ensures multiset(r) == multiset(xs)
    ensures forall i, j :: 0 <= i < j < |r| ==>
      r[i].article.publishedAt >= r[j].article.publishedAt
    ensures forall i, j :: 0 <= i < j < |r| && r[i].article.publishedAt == r[j].article.publishedAt ==>
      Weight(now, r[i].feed.addedAt) <= Weight(now, r[j].feed.addedAt)
  {
    RankOrderIsTotalPreorder(now);
    SortBySorted(xs, RankOrder(now));
    SortBy(xs, RankOrder(now))
  }

  /** The articles whose key equals that of `y`. */
  function SameRankKey(now: Timestamp, y: Ranked): Ranked -> bool {
    z => RankKey(z, now) == RankKey(y, now)
  }

  /** Stability: articles with equal (published, weight) keys keep their
      input order. */
  lemma SortArticlesStable(xs: seq<Ranked>, now: Timestamp, y: Ranked)
    ensures Filter(SortArticles(xs, now), SameRankKey(now, y)) == Filter(xs, SameRankKey(now, y))
  {
    var le := RankOrder(now);
    RankOrderIsTotalPreorder(now);
    SortByStable(xs, le, y);
    var sorted := SortBy(xs, le);
    forall i | 0 <= i < |sorted| ensures SameKeyAs(le, y)(sorted[i]) == SameRankKey(now, y)(sorted[i]) {
    }
    FilterSameOn(sorted, SameKeyAs(le, y), SameRankKey(now, y));
    FilterSameOn(xs, SameKeyAs(le, y), SameRankKey(now, y));
  }

  /** At equal publication times, an article of a feed added at least twenty
      days ago is ranked before one of a feed added just now, whichever comes
      first in the input. */
  lemma OlderFeedRankedFirst(recent: Ranked, stale: Ranked, now: Timestamp)
    requires recent.article.publishedAt == stale.article.publishedAt
    requires recent.feed.addedAt == now
    requires now - stale.feed.addedAt >= 20 * SecondsPerDay
    ensures SortArticles([recent, stale], now) == [stale, recent]
    ensures SortArticles([stale, recent], now) == [stale, recent]
  {
    var r := SortArticles([recent, stale], now);
    assert Weight(now, stale.feed.addedAt) == 0.0 && Weight(now, recent.feed.addedAt) == 1.0;
    assert multiset(r) == multiset{recent, stale};
    assert r[0] in multiset(r) && r[1] in multiset(r);
  }
}
