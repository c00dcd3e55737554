/** The batch hand-off to the LLM stage (data/storage/storage_batch.py): read
    every row created at or before a cutoff, then prune exactly those rows
    in one transaction. The three SQLite tables are in-memory sequences of
    rows; `created_at_iso` is fixed-width second-precision ISO text, whose
    `<=` order is the order of the epoch seconds it encodes, so it is kept
    as those seconds. */
module StorageBatch {
  import opened Basics
  import opened Text
  import opened NewsModel
  import opened Queries

  /** A `news_items` row; `url` is the primary key. */
  datatype NewsRow = NewsRow(
    url: string,
    headline: string,
    content: Option<string>,
    published: int,
    source: string,
    newsType: NewsType,
    createdAt: int)

  /** A `news_symbols` row linking an article to a symbol; `(url, symbol)` is
      the primary key. */
  datatype LinkRow = LinkRow(url: string, symbol: string, isImportant: Importance, createdAt: int)

  datatype Session = Pre | Reg | Post | Closed

  /** A `price_data` row; `(symbol, timestamp)` is the primary key and the
      price is the stored decimal text. */
  datatype PriceRow = PriceRow(
    symbol: string,
    timestamp: int,
    price: string,
    volume: Option<nat>,
    session: Session,
    createdAt: int)

  /** `PriceData`: a price row without its bookkeeping column. */
  datatype PriceData = PriceData(symbol: string, timestamp: int, price: string, volume: Option<nat>, session: Session)

  datatype Tables = Tables(news: seq<NewsRow>, links: seq<LinkRow>, prices: seq<PriceRow>)

  function NewsKey(r: NewsRow): string { r.url }
  function LinkKey(l: LinkRow): (string, string) { (l.url, l.symbol) }
  function PriceKey(p: PriceRow): (string, int) { (p.symbol, p.timestamp) }

  /** The primary keys of the three tables. */
  ghost predicate ValidTables(t: Tables) {
    UniqueBy(t.news, NewsKey) && UniqueBy(t.links, LinkKey) && UniqueBy(t.prices, PriceKey)
  }

  /** The `created_at_iso <= ?` and `created_at_iso > ?` row predicates. */
  function NewsUpTo(cutoff: int): NewsRow -> bool { (r: NewsRow) => r.createdAt <= cutoff }
  function NewsAfter(cutoff: int): NewsRow -> bool { (r: NewsRow) => r.createdAt > cutoff }
  function PriceUpTo(cutoff: int): PriceRow -> bool { (p: PriceRow) => p.createdAt <= cutoff }
  function PriceAfter(cutoff: int): PriceRow -> bool { (p: PriceRow) => p.createdAt > cutoff }
  /** `url IN (...)` and its negation. */
  function LinkTo(urls: set<string>): LinkRow -> bool { (l: LinkRow) => l.url in urls }
  function LinkNotTo(urls: set<string>): LinkRow -> bool { (l: LinkRow) => l.url !in urls }

  // ---------------------------------------------------------------- reads

  /** One row of `news_items JOIN news_symbols ON ns.url = ni.url`. */
  datatype Joined = Joined(item: NewsRow, link: LinkRow)

  /** The join rows of one article, in `news_symbols` order. */
  function LinksOf(item: NewsRow, links: seq<LinkRow>): (r: seq<Joined>)
    ensures forall j :: j in r <==> j.item == item && j.link in links && j.link.url == item.url
    decreases |links|
  {
    if links == [] then []
    else
      var init, l := links[..|links| - 1], links[|links| - 1];
      assert forall x :: x in links <==> x in init || x == l;
      LinksOf(item, init) + (if l.url == item.url then [Joined(item, l)] else [])
  }

  /** The inner join, article by article. */
  function Join(items: seq<NewsRow>, links: seq<LinkRow>): (r: seq<Joined>)
    ensures forall j :: j in r <==> j.item in items && j.link in links && j.link.url == j.item.url
    decreases |items|
  {
    if items == [] then []
    else
      var init := items[..|items| - 1];
      assert forall x :: x in items <==> x in init || x == items[|items| - 1];
      Join(init, links) + LinksOf(items[|items| - 1], links)
  }

  /** Code-point order with the shorter string first, which is SQLite's
      binary collation on UTF-8 text. */
  predicate StrLess(a: string, b: string) {
    LexLe(a, b) && a != b
  }

  /** `ORDER BY ni.created_at_iso ASC, ni.url ASC, ns.symbol ASC`. */
  predicate NewsOrder(a: Joined, b: Joined) {
    || a.item.createdAt < b.item.createdAt
    || (&& a.item.createdAt == b.item.createdAt
        && (|| StrLess(a.item.url, b.item.url)
            || (a.item.url == b.item.url && LexLe(a.link.symbol, b.link.symbol))))
  }

  /** `ORDER BY created_at_iso ASC, symbol ASC`. */
  predicate PriceOrder(a: PriceRow, b: PriceRow) {
    a.createdAt < b.createdAt || (a.createdAt == b.createdAt && LexLe(a.symbol, b.symbol))
  }

  lemma StrLessTransitive(a: string, b: string, c: string)
    requires StrLess(a, b) && StrLess(b, c)
    ensures StrLess(a, c)
  {
    LexLeTransitive(a, b, c);
    if a == c {
      LexLeAntisymmetric(a, b);
    }
  }

  lemma NewsOrderIsSortKey()
    ensures TotalPreorder(NewsOrder)
  {
    forall a: Joined, b: Joined
      ensures NewsOrder(a, b) || NewsOrder(b, a)
    {
      LexLeTotal(a.item.url, b.item.url);
      LexLeTotal(a.link.symbol, b.link.symbol);
    }
    forall a: Joined, b: Joined, c: Joined | NewsOrder(a, b) && NewsOrder(b, c)
      ensures NewsOrder(a, c)
    {
      if a.item.createdAt == b.item.createdAt == c.item.createdAt {
        if StrLess(a.item.url, b.item.url) && StrLess(b.item.url, c.item.url) {
          StrLessTransitive(a.item.url, b.item.url, c.item.url);
        } else if a.item.url == b.item.url == c.item.url {
          LexLeTransitive(a.link.symbol, b.link.symbol, c.link.symbol);
        }
      }
    }
  }

  lemma PriceOrderIsSortKey()
    ensures TotalPreorder(PriceOrder)
  {
    forall a: PriceRow, b: PriceRow
      ensures PriceOrder(a, b) || PriceOrder(b, a)
    {
      LexLeTotal(a.symbol, b.symbol);
    }
    forall a: PriceRow, b: PriceRow, c: PriceRow | PriceOrder(a, b) && PriceOrder(b, c)
      ensures PriceOrder(a, c)
    {
      if a.createdAt == b.createdAt == c.createdAt {
        LexLeTransitive(a.symbol, b.symbol, c.symbol);
      }
    }
  }

  /** `_row_to_news_entry`: the article columns and the link's symbol and
      importance. */
  function EntryOf(j: Joined): (e: NewsEntry)
    ensures e.article.url == j.item.url && e.article.published == j.item.published
    ensures e.symbol == j.link.symbol && e.isImportant == j.link.isImportant
  {
    var i := j.item;
    NewsEntry(NewsItem(i.url, i.headline, i.published, i.source, i.newsType, i.content), j.link.symbol, j.link.isImportant)
  }

  function ToPriceData(p: PriceRow): (d: PriceData)
    ensures d.symbol == p.symbol && d.timestamp == p.timestamp && d.price == p.price
  {
    PriceData(p.symbol, p.timestamp, p.price, p.volume, p.session)
  }

  /** The joined rows `get_news_before` selects, in result order. */
  function NewsRowsUpTo(t: Tables, cutoff: int): (r: seq<Joined>)
    ensures multiset(r) == multiset(Join(Filter(t.news, NewsUpTo(cutoff)), t.links))
  {
    SortBy(Join(Filter(t.news, NewsUpTo(cutoff)), t.links), NewsOrder)
  }

  /** The price rows `get_prices_before` selects, in result order. */
  function PriceRowsUpTo(t: Tables, cutoff: int): (r: seq<PriceRow>)
    ensures multiset(r) == multiset(Filter(t.prices, PriceUpTo(cutoff)))
  {
    SortBy(Filter(t.prices, PriceUpTo(cutoff)), PriceOrder)
  }

  /** `get_news_before(cutoff)`. */
  function GetNewsBefore(t: Tables, cutoff: int): (r: seq<NewsEntry>)
    ensures |r| == |NewsRowsUpTo(t, cutoff)|
  {
    var rows := NewsRowsUpTo(t, cutoff);
    seq(|rows|, k requires 0 <= k < |rows| => EntryOf(rows[k]))
  }

  /** `get_prices_before(cutoff)`. */
  function GetPricesBefore(t: Tables, cutoff: int): (r: seq<PriceData>)
    ensures |r| == |PriceRowsUpTo(t, cutoff)|
  {
    var rows := PriceRowsUpTo(t, cutoff);
    seq(|rows|, k requires 0 <= k < |rows| => ToPriceData(rows[k]))
  }

  /** The joined rows `get_news_before` reads are the matching (article,
      link) pairs at or before the cutoff. */
  lemma NewsRowsUpToMembers(t: Tables, cutoff: int, j: Joined)
    ensures j in NewsRowsUpTo(t, cutoff) <==>
      j.item in t.news && j.link in t.links && j.item.createdAt <= cutoff && j.link.url == j.item.url
  {
    SortByMembers(Join(Filter(t.news, NewsUpTo(cutoff)), t.links), NewsOrder);
  }

  /** `get_news_before` returns one entry per (article, link) pair whose
      article was created at or before the cutoff, and nothing else. */
  lemma GetNewsBeforeMembers(t: Tables, cutoff: int, e: NewsEntry)
    ensures e in GetNewsBefore(t, cutoff) <==>
      exists item, link :: item in t.news && link in t.links && item.createdAt <= cutoff
        && link.url == item.url && e == EntryOf(Joined(item, link))
  {
    var rows := NewsRowsUpTo(t, cutoff);
    var r := GetNewsBefore(t, cutoff);
    if e in r {
      var k :| 0 <= k < |r| && r[k] == e;
      var j := rows[k];
      NewsRowsUpToMembers(t, cutoff, j);
      assert j in rows && e == EntryOf(Joined(j.item, j.link));
    }
    if exists item, link :: item in t.news && link in t.links && item.createdAt <= cutoff
        && link.url == item.url && e == EntryOf(Joined(item, link)) {
      var item, link :| item in t.news && link in t.links && item.createdAt <= cutoff
        && link.url == item.url && e == EntryOf(Joined(item, link));
      NewsRowsUpToMembers(t, cutoff, Joined(item, link));
      var k :| 0 <= k < |rows| && rows[k] == Joined(item, link);
      assert r[k] == e;
    }
  }

  /** The rows behind `get_news_before` come in (created_at, url, symbol)
      order. */
  lemma GetNewsBeforeOrdered(t: Tables, cutoff: int)
    ensures SortedBy(NewsRowsUpTo(t, cutoff), NewsOrder)
    ensures forall k :: 0 <= k < |NewsRowsUpTo(t, cutoff)| ==>
      GetNewsBefore(t, cutoff)[k] == EntryOf(NewsRowsUpTo(t, cutoff)[k])
  {
    NewsOrderIsSortKey();
    SortBySorted(Join(Filter(t.news, NewsUpTo(cutoff)), t.links), NewsOrder);
  }

  /** An article without links is not read, however old it is. */
  lemma UnlinkedArticleIsNotRead(t: Tables, cutoff: int, item: NewsRow)
    requires item in t.news
    requires forall l :: l in t.links ==> l.url != item.url
    ensures forall e :: e in GetNewsBefore(t, cutoff) ==> e.article.url != item.url
  {
    forall e | e in GetNewsBefore(t, cutoff)
      ensures e.article.url != item.url
    {
      GetNewsBeforeMembers(t, cutoff, e);
    }
  }

  /** `get_prices_before` returns exactly the price rows created at or
      before the cutoff. */
  lemma GetPricesBeforeMembers(t: Tables, cutoff: int, p: PriceData)
    ensures p in GetPricesBefore(t, cutoff) <==>
      exists row :: row in t.prices && row.createdAt <= cutoff && p == ToPriceData(row)
  {
    var rows := PriceRowsUpTo(t, cutoff);
    var r := GetPricesBefore(t, cutoff);
    if p in r {
      var k :| 0 <= k < |r| && r[k] == p;
      PriceRowsUpToMembers(t, cutoff, rows[k]);
      assert rows[k] in rows;
    }
    if exists row :: row in t.prices && row.createdAt <= cutoff && p == ToPriceData(row) {
      var row :| row in t.prices && row.createdAt <= cutoff && p == ToPriceData(row);
      PriceRowsUpToMembers(t, cutoff, row);
      var k :| 0 <= k < |rows| && rows[k] == row;
      assert r[k] == p;
    }
  }

  /** The price rows `get_prices_before` reads are those at or before the
      cutoff. */
  lemma PriceRowsUpToMembers(t: Tables, cutoff: int, row: PriceRow)
    ensures row in PriceRowsUpTo(t, cutoff) <==> row in t.prices && row.createdAt <= cutoff
  {
    SortByMembers(Filter(t.prices, PriceUpTo(cutoff)), PriceOrder);
  }

  /** The rows behind `get_prices_before` come in (created_at, symbol) order. */
  lemma GetPricesBeforeOrdered(t: Tables, cutoff: int)
    ensures SortedBy(PriceRowsUpTo(t, cutoff), PriceOrder)
    ensures forall k :: 0 <= k < |PriceRowsUpTo(t, cutoff)| ==>
      GetPricesBefore(t, cutoff)[k] == ToPriceData(PriceRowsUpTo(t, cutoff)[k])
  {
    PriceOrderIsSortKey();
    SortBySorted(Filter(t.prices, PriceUpTo(cutoff)), PriceOrder);
  }

  // ---------------------------------------------------------------- prune

  /** The urls of the articles the batch prunes: the `IN (SELECT url ...)`
      subquery, run before any article is deleted. */
  function DoomedUrls(news: seq<NewsRow>, cutoff: int): (u: set<string>)
    ensures forall url :: url in u <==> exists r :: r in news && r.createdAt <= cutoff && r.url == url
  {
    set r | r in news && r.createdAt <= cutoff :: r.url
  }

  /** The tables after `commit_llm_batch(cutoff)` commits: links go with
      their article's `created_at`, not their own. */
  function Pruned(t: Tables, cutoff: int): (r: Tables)
    ensures forall n :: n in r.news <==> n in t.news && n.createdAt > cutoff
    ensures forall p :: p in r.prices <==> p in t.prices && p.createdAt > cutoff
    ensures forall l :: l in r.links <==> l in t.links && l.url !in DoomedUrls(t.news, cutoff)
  {
    Tables(
      Filter(t.news, NewsAfter(cutoff)),
      Filter(t.links, LinkNotTo(DoomedUrls(t.news, cutoff))),
      Filter(t.prices, PriceAfter(cutoff)))
  }

  /** The dictionary `commit_llm_batch` returns. */
  datatype BatchCounts = BatchCounts(symbolsDeleted: nat, newsDeleted: nat, pricesDeleted: nat)

  /** The rows each `DELETE` matches. */
  function PruneCounts(t: Tables, cutoff: int): (n: BatchCounts)
    ensures n.symbolsDeleted <= |t.links| && n.newsDeleted <= |t.news| && n.pricesDeleted <= |t.prices|
  {
    BatchCounts(
      |Filter(t.links, LinkTo(DoomedUrls(t.news, cutoff)))|,
      |Filter(t.news, NewsUpTo(cutoff))|,
      |Filter(t.prices, PriceUpTo(cutoff))|)
  }

  /** Every row is either pruned or kept, and the counts are the numbers of
      rows that disappear from each table. */
  lemma PruneCountsRemoved(t: Tables, cutoff: int)
    ensures var after, n := Pruned(t, cutoff), PruneCounts(t, cutoff);
      && n.symbolsDeleted == |t.links| - |after.links|
      && n.newsDeleted == |t.news| - |after.news|
      && n.pricesDeleted == |t.prices| - |after.prices|
      && multiset(Filter(t.news, NewsUpTo(cutoff))) + multiset(after.news) == multiset(t.news)
      && multiset(Filter(t.prices, PriceUpTo(cutoff))) + multiset(after.prices) == multiset(t.prices)
  {
    var doomed := DoomedUrls(t.news, cutoff);
    FilterSplit(t.links, LinkTo(doomed), LinkNotTo(doomed));
    FilterSplit(t.news, NewsUpTo(cutoff), NewsAfter(cutoff));
    FilterSplit(t.prices, PriceUpTo(cutoff), PriceAfter(cutoff));
  }

  /** After the prune nothing at or before the cutoff is left, and no link
      points at a pruned article. */
  lemma PruneClears(t: Tables, cutoff: int)
    ensures var after := Pruned(t, cutoff);
      && (forall r :: r in after.news ==> r.createdAt > cutoff)
      && (forall p :: p in after.prices ==> p.createdAt > cutoff)
      && (forall l, r :: l in after.links && r in t.news && r.url == l.url ==> r.createdAt > cutoff)
  {
  }

  /** Nothing else changes: newer rows stay, and a link stays exactly when
      its article is not pruned, whatever its own `created_at`. */
  lemma PruneKeepsTheRest(t: Tables, cutoff: int)
    ensures var after := Pruned(t, cutoff);
      && (forall r :: r in after.news <==> r in t.news && r.createdAt > cutoff)
      && (forall p :: p in after.prices <==> p in t.prices && p.createdAt > cutoff)
      && (forall l :: l in after.links <==>
            l in t.links && forall r :: r in t.news && r.url == l.url ==> r.createdAt > cutoff)
  {
  }

  /** The prune keeps the primary keys. */
  lemma PruneKeepsValid(t: Tables, cutoff: int)
    requires ValidTables(t)
    ensures ValidTables(Pruned(t, cutoff))
  {
    FilterUniqueKeys(t.news, NewsAfter(cutoff), NewsKey);
    FilterUniqueKeys(t.links, LinkNotTo(DoomedUrls(t.news, cutoff)), LinkKey);
    FilterUniqueKeys(t.prices, PriceAfter(cutoff), PriceKey);
  }

  /** Links that all had an article still all have one. */
  lemma PruneLeavesNoOrphans(t: Tables, cutoff: int)
    requires forall l :: l in t.links ==> exists r :: r in t.news && r.url == l.url
    ensures var after := Pruned(t, cutoff);
      forall l :: l in after.links ==> exists r :: r in after.news && r.url == l.url
  {
    var after := Pruned(t, cutoff);
    forall l | l in after.links
      ensures exists r :: r in after.news && r.url == l.url
    {
      var r :| r in t.news && r.url == l.url;
      assert r in after.news;
    }
  }

  /** A second prune with the same cutoff finds nothing to delete. */
  lemma PruneIdempotent(t: Tables, cutoff: int)
    ensures Pruned(Pruned(t, cutoff), cutoff) == Pruned(t, cutoff)
    ensures PruneCounts(Pruned(t, cutoff), cutoff) == BatchCounts(0, 0, 0)
  {
    var after := Pruned(t, cutoff);
    assert DoomedUrls(after.news, cutoff) == {};
    FilterAll(after.news, NewsAfter(cutoff));
    FilterAll(after.links, LinkNotTo({}));
    FilterAll(after.prices, PriceAfter(cutoff));
    PruneCountsRemoved(after, cutoff);
  }

  /** The urls of a list of articles. */
  function UrlsOf(items: seq<NewsRow>): (u: set<string>)
    ensures forall url :: url in u <==> exists r :: r in items && r.url == url
    decreases |items|
  {
    if items == [] then {}
    else
      var init := items[..|items| - 1];
      assert forall x :: x in items <==> x in init || x == items[|items| - 1];
      UrlsOf(init) + {items[|items| - 1].url}
  }

  lemma {:induction false} LinksOfCount(item: NewsRow, links: seq<LinkRow>)
    ensures |LinksOf(item, links)| == |Filter(links, LinkTo({item.url}))|
    decreases |links|
  {
    if links != [] {
      LinksOfCount(item, links[..|links| - 1]);
    }
  }

  /** With unique urls, the join has one row per link to a joined article. */
  lemma {:induction false} JoinCount(items: seq<NewsRow>, links: seq<LinkRow>)
    requires UniqueBy(items, NewsKey)
    ensures |Join(items, links)| == |Filter(links, LinkTo(UrlsOf(items)))|
    decreases |items|
  {
    if items != [] {
      var init, x := items[..|items| - 1], items[|items| - 1];
      assert UniqueBy(init, NewsKey) by {
        forall i, j | 0 <= i < j < |init|
          ensures NewsKey(init[i]) != NewsKey(init[j])
        {
          assert init[i] == items[i] && init[j] == items[j];
        }
      }
      JoinCount(init, links);
      LinksOfCount(x, links);
      forall r | r in init
        ensures r.url != x.url
      {
        var i :| 0 <= i < |init| && init[i] == r;
        assert NewsKey(items[i]) != NewsKey(items[|items| - 1]);
      }
      assert Join(items, links) == Join(init, links) + LinksOf(x, links);
      assert UrlsOf(items) == UrlsOf(init) + {x.url};
      FilterDisjointUnion(links, LinkTo(UrlsOf(init)), LinkTo({x.url}), LinkTo(UrlsOf(items)));
    } else {
      FilterAll(links, LinkNotTo({}));
      FilterSplit(links, LinkTo({}), LinkNotTo({}));
    }
  }

  /** `get_prices_before(cutoff)` lists exactly the price rows
      `commit_llm_batch(cutoff)` deletes. */
  lemma PricesReadAreRemoved(t: Tables, cutoff: int)
    ensures multiset(PriceRowsUpTo(t, cutoff)) + multiset(Pruned(t, cutoff).prices) == multiset(t.prices)
    ensures |GetPricesBefore(t, cutoff)| == PruneCounts(t, cutoff).pricesDeleted
  {
    PruneCountsRemoved(t, cutoff);
  }

  /** With unique urls, `get_news_before(cutoff)` returns one entry per link
      `commit_llm_batch(cutoff)` deletes. */
  lemma NewsReadCountsRemoved(t: Tables, cutoff: int)
    requires UniqueBy(t.news, NewsKey)
    ensures |GetNewsBefore(t, cutoff)| == PruneCounts(t, cutoff).symbolsDeleted
  {
    var before := Filter(t.news, NewsUpTo(cutoff));
    FilterUniqueKeys(t.news, NewsUpTo(cutoff), NewsKey);
    JoinCount(before, t.links);
    assert UrlsOf(before) == DoomedUrls(t.news, cutoff);
    SortByMembers(Join(before, t.links), NewsOrder);
  }

  /** The links `get_news_before(cutoff)` joins are exactly the links
      `commit_llm_batch(cutoff)` deletes. */
  lemma NewsReadAreRemoved(t: Tables, cutoff: int)
    ensures forall l :: l in t.links && l !in Pruned(t, cutoff).links <==>
      exists j :: j in NewsRowsUpTo(t, cutoff) && j.link == l
  {
    forall l
      ensures l in t.links && l !in Pruned(t, cutoff).links <==>
        exists j :: j in NewsRowsUpTo(t, cutoff) && j.link == l
    {
      if l in t.links && l !in Pruned(t, cutoff).links {
        var r :| r in t.news && r.createdAt <= cutoff && r.url == l.url;
        NewsRowsUpToMembers(t, cutoff, Joined(r, l));
      }
      if j :| j in NewsRowsUpTo(t, cutoff) && j.link == l {
        NewsRowsUpToMembers(t, cutoff, j);
      }
    }
  }

  // ---------------------------------------------------------------- state

  /** The statements of the transaction, in order, the last being the commit. */
  datatype BatchStep = DeleteLinks | DeleteNews | DeletePrices | CommitStep

  /** A `sqlite3` error raised by one statement of the transaction. */
  datatype StorageError = StepFailed(step: BatchStep)

  /** The three tables of the database. */
  class Store {
    var newsItems: seq<NewsRow>
    var newsSymbols: seq<LinkRow>
    var priceData: seq<PriceRow>

    function Snapshot(): Tables
      reads this
    {
      Tables(newsItems, newsSymbols, priceData)
    }

    ghost predicate Valid()
      reads this
    {
      ValidTables(Snapshot())
    }

    constructor(t: Tables)
      requires ValidTables(t)
      ensures Snapshot() == t && Valid()
    {
      newsItems, newsSymbols, priceData := t.news, t.links, t.prices;
    }

    /** The rollback of the transaction. */
    method Restore(saved: Tables)
      modifies this
      ensures Snapshot() == saved
    {
      newsItems, newsSymbols, priceData := saved.news, saved.links, saved.prices;
    }

    /** `DELETE FROM news_symbols WHERE url IN (...)`. */
    method PruneLinks(doomed: set<string>) returns (n: nat)
      modifies this
      ensures newsSymbols == Filter(old(newsSymbols), LinkNotTo(doomed))
      ensures n == |Filter(old(newsSymbols), LinkTo(doomed))|
      ensures newsItems == old(newsItems) && priceData == old(priceData)
    {
      FilterSplit(newsSymbols, LinkTo(doomed), LinkNotTo(doomed));
      newsSymbols, n := Partition(newsSymbols, LinkNotTo(doomed));
    }

    /** `DELETE FROM news_items WHERE created_at_iso <= ?`. */
    method PruneNews(cutoff: int) returns (n: nat)
      modifies this
      ensures newsItems == Filter(old(newsItems), NewsAfter(cutoff))
      ensures n == |Filter(old(newsItems), NewsUpTo(cutoff))|
      ensures newsSymbols == old(newsSymbols) && priceData == old(priceData)
    {
      FilterSplit(newsItems, NewsUpTo(cutoff), NewsAfter(cutoff));
      newsItems, n := Partition(newsItems, NewsAfter(cutoff));
    }

    /** `DELETE FROM price_data WHERE created_at_iso <= ?`. */
    method PrunePrices(cutoff: int) returns (n: nat)
      modifies this
      ensures priceData == Filter(old(priceData), PriceAfter(cutoff))
      ensures n == |Filter(old(priceData), PriceUpTo(cutoff))|
      ensures newsItems == old(newsItems) && newsSymbols == old(newsSymbols)
    {
      FilterSplit(priceData, PriceUpTo(cutoff), PriceAfter(cutoff));
      priceData, n := Partition(priceData, PriceAfter(cutoff));
    }

    /** `commit_llm_batch(cutoff)`, with `fault` naming the statement that
        raises, if any: the three `DELETE`s run in order inside one
        transaction, which either commits all of them or rolls all back. */
    method CommitLlmBatch(cutoff: int, fault: Option<BatchStep>) returns (r: Result<BatchCounts, StorageError>)
      requires Valid()
      modifies this
      ensures Valid()
      ensures fault.None? ==>
        r == Success(PruneCounts(old(Snapshot()), cutoff)) && Snapshot() == Pruned(old(Snapshot()), cutoff)
      ensures fault.Some? ==> r == Failure(StepFailed(fault.value)) && Snapshot() == old(Snapshot())
    {
      var saved := Snapshot();
      if fault.Some? && fault.value.DeleteLinks? {
        return Failure(StepFailed(DeleteLinks));
      }
      var doomed := DoomedUrls(newsItems, cutoff);
      var symbolsDeleted := PruneLinks(doomed);
      if fault.Some? && fault.value.DeleteNews? {
        Restore(saved);
        return Failure(StepFailed(DeleteNews));
      }
      var newsDeleted := PruneNews(cutoff);
      if fault.Some? && fault.value.DeletePrices? {
        Restore(saved);
        return Failure(StepFailed(DeletePrices));
      }
      var pricesDeleted := PrunePrices(cutoff);
      if fault.Some? && fault.value.CommitStep? {
        Restore(saved);
        return Failure(StepFailed(CommitStep));
      }
      assert fault.None?;
      PruneKeepsValid(saved, cutoff);
      return Success(BatchCounts(symbolsDeleted, newsDeleted, pricesDeleted));
    }
  }
}
