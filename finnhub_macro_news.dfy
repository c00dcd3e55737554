/** `FinnhubMacroNewsProvider` (data/providers/finnhub/finnhub_macro_news.py):
    market-wide news fetched with one request, continued by article id, each
    article mapped to the watched symbols in its `related` field or to the
    sentinel `MARKET`. */
module FinnhubMacroNews {
  import opened Basics
  import opened Text
  import opened Symbols
  import opened DataSource
  import opened NewsModel
  import opened Queries

  const MarketSymbol := "MARKET"
  /** The first-run lookback (`timedelta(days=2)`). */
  const LookbackSeconds := 2 * SecondsPerDay

  /** The sentinel can never be produced by `parse_symbols` with validation on:
      it has six letters. */
  lemma MarketIsNotASymbol()
    ensures !IsSymbolShape(MarketSymbol)
  {
  }

  /** A watchlist as `normalize` leaves it: non-blank, trimmed, upper-case. */
  predicate IsNormalized(watch: seq<string>) {
    forall k :: 0 <= k < |watch| ==> watch[k] != [] && IsTrimmed(watch[k]) && IsUpper(watch[k])
  }

  /** The watchlist passed as `filter_to`. */
  function Strs(watch: seq<string>): (r: seq<Raw>)
    ensures |r| == |watch| && forall k :: 0 <= k < |watch| ==> r[k] == Str(watch[k])
  {
    seq(|watch|, k requires 0 <= k < |watch| => Str(watch[k]))
  }

  /** For a normalised watchlist the allow set of `parse_symbols` is the
      watchlist itself. */
  lemma AllowSetOfNormalized(watch: seq<string>)
    requires IsNormalized(watch)
    ensures AllowSet(Some(Strs(watch))) == Some(set w | w in watch)
  {
    var raws := Strs(watch);
    var allow := AllowSet(Some(raws)).value;
    var ws := set w | w in watch;
    forall w | w in ws
      ensures w in allow
    {
      var k :| 0 <= k < |watch| && watch[k] == w;
      NormalizedFixed(w);
      assert raws[k] in raws;
    }
    forall x | x in allow
      ensures x in ws
    {
      AllowMember(raws, x);
      var k :| 0 <= k < |raws| && raws[k].Str? && x == Normalize(raws[k].s);
      NormalizedFixed(watch[k]);
    }
    assert allow == ws;
  }

  lemma AllowMember(raws: seq<Raw>, x: string)
    requires x in AllowSet(Some(raws)).value
    ensures exists k :: 0 <= k < |raws| && raws[k].Str? && x == Normalize(raws[k].s)
  {
    var r :| r in raws && r.Str? && !AllSpace(r.s) && x == Normalize(r.s);
  }

  /** A non-blank, trimmed, upper-case string is its own normal form. */
  lemma NormalizedFixed(w: string)
    requires w != [] && IsTrimmed(w) && IsUpper(w)
    ensures !AllSpace(w) && Normalize(w) == w
  {
    StripTrimmed(w);
    UpperProperties(w);
  }

  /** `_extract_symbols_from_related`: the watched, well-formed symbols named
      in `related`, or `["MARKET"]` when there are none. */
  function ExtractSymbols(related: string, watch: seq<string>): (r: seq<string>)
    ensures |r| >= 1
    ensures AllSpace(related) ==> r == [MarketSymbol]
  {
    if AllSpace(related) then [MarketSymbol]
    else
      var syms := ParseSymbolsSpec(Str(related), Some(Strs(watch)), true);
      if syms == [] then [MarketSymbol] else syms
  }

  /** With validation on and a normalised watchlist, a token is wanted
      exactly when it is a well-formed watched symbol. */
  lemma WantedIffWatched(t: string, watch: seq<string>)
    requires IsNormalized(watch)
    ensures Wanted(t, true, AllowSet(Some(Strs(watch)))) <==> IsSymbolShape(t) && t in watch
  {
    AllowSetOfNormalized(watch);
  }

  /** The symbols an article is filed under, when `related` names some
      watched, well-formed symbol: each such symbol once, in the order
      `related` names them. */
  lemma ExtractSymbolsMatched(related: string, watch: seq<string>)
    requires IsNormalized(watch)
    requires ExtractSymbols(related, watch) != [MarketSymbol]
    ensures var r := ExtractSymbols(related, watch);
      && NoDuplicates(r)
      && IsSubsequence(r, Tokens(related))
      && FirstOccurrenceOrder(r, Tokens(related))
      && (forall k :: 0 <= k < |r| ==> r[k] in watch && IsSymbolShape(r[k]))
      && (forall t :: t in Tokens(related) && IsSymbolShape(t) && t in watch ==> t in r)
  {
    var tokens, allow := Tokens(related), AllowSet(Some(Strs(watch)));
    var r := Accepted(tokens, true, allow);
    assert ExtractSymbols(related, watch) == r;
    AcceptedSound(tokens, true, allow);
    AcceptedComplete(tokens, true, allow);
    AcceptedNoDuplicates(tokens, true, allow);
    AcceptedOrdered(tokens, true, allow);
    AcceptedFirstOccurrence(tokens, true, allow);
    forall k | 0 <= k < |r|
      ensures r[k] in watch && IsSymbolShape(r[k])
    {
      assert r[k] in r;
      WantedIffWatched(r[k], watch);
    }
    forall t | t in tokens && IsSymbolShape(t) && t in watch
      ensures t in r
    {
      WantedIffWatched(t, watch);
    }
  }

  /** The sentinel is used exactly when `related` is blank or names no
      watched, well-formed symbol. */
  lemma ExtractSymbolsFallback(related: string, watch: seq<string>)
    requires IsNormalized(watch)
    ensures ExtractSymbols(related, watch) == [MarketSymbol] <==>
      AllSpace(related) || forall t :: t in Tokens(related) ==> !(IsSymbolShape(t) && t in watch)
  {
    MarketIsNotASymbol();
    if !AllSpace(related) {
      var filterTo := Some(Strs(watch));
      ParseSymbolsProperties(Str(related), filterTo, true);
      var syms := ParseSymbolsSpec(Str(related), filterTo, true);
      if syms != [] {
        assert IsSymbolShape(syms[0]);
        WantedIffWatched(syms[0], watch);
        assert syms[0] in Tokens(related) by {
          assert IsSubsequence(syms, Tokens(related));
          AcceptedSound(Tokens(related), true, AllowSet(filterTo));
        }
      } else {
        forall t | t in Tokens(related)
          ensures !(IsSymbolShape(t) && t in watch)
        {
          WantedIffWatched(t, watch);
        }
      }
    }
  }

  /** The entries `_parse_article` builds for one article, one per symbol the
      `NewsEntry` checks accept. */
  function EntriesFor(item: NewsItem, syms: seq<string>, checks: RecordChecks): (r: seq<NewsEntry>)
    ensures |r| <= |syms|
    ensures forall e :: e in r ==>
      e.article == item && e.symbol in syms && e.isImportant == Unclassified && checks.entryOk(e)
    ensures forall s :: s in syms && checks.entryOk(NewsEntry(item, s, Unclassified)) ==>
      NewsEntry(item, s, Unclassified) in r
    decreases |syms|
  {
    if syms == [] then []
    else
      var init := syms[..|syms| - 1];
      var e := NewsEntry(item, syms[|syms| - 1], Unclassified);
      assert forall s :: s in syms ==> s in init || s == syms[|syms| - 1];
      EntriesFor(item, init, checks) + (if checks.entryOk(e) then [e] else [])
  }

  /** Whether the `NewsEntry` checks accept `item` filed under a symbol. */
  function EntryAccepted(item: NewsItem, checks: RecordChecks): string -> bool {
    s => checks.entryOk(NewsEntry(item, s, Unclassified))
  }

  /** The entries are exactly one per accepted symbol, in symbol order: the
      symbols the checks accept, each paired with the article. */
  lemma {:induction false} EntriesForAccepted(item: NewsItem, syms: seq<string>, checks: RecordChecks)
    ensures |EntriesFor(item, syms, checks)| == |Filter(syms, EntryAccepted(item, checks))|
    ensures forall k :: 0 <= k < |EntriesFor(item, syms, checks)| ==>
      EntriesFor(item, syms, checks)[k] == NewsEntry(item, Filter(syms, EntryAccepted(item, checks))[k], Unclassified)
    decreases |syms|
  {
    if syms != [] {
      var init, s := syms[..|syms| - 1], syms[|syms| - 1];
      EntriesForAccepted(item, init, checks);
      SnocSplit([], syms);
      FilterSnoc(init, s, EntryAccepted(item, checks));
    }
  }

  /** What every macro article record satisfies. */
  predicate MacroItemShape(item: NewsItem, cutoff: Option<int>) {
    && item.newsType == Macro
    && item.headline != [] && IsTrimmed(item.headline)
    && item.url != [] && IsTrimmed(item.url)
    && item.source != [] && IsTrimmed(item.source)
    && (item.content.Some? ==> item.content.value != [] && IsTrimmed(item.content.value))
    && 0 < item.published <= MaxDatetimeEpoch
    && (cutoff.Some? ==> item.published > cutoff.value)
  }

  /** The part of `_parse_article` before its symbol loop: the head checks,
      the field reads and the `NewsItem` construction, giving the record and
      the stripped `related` text, or why there is none. */
  datatype Prepared = Ready(item: NewsItem, related: string) | Skip | Escape

  function PrepareItem(a: Article, cutoff: Option<int>, checks: RecordChecks): (p: Prepared)
    ensures p.Escape? <==> ArticleHead(a, cutoff).HeadEscapes?
    ensures p.Ready? ==> MacroItemShape(p.item, cutoff) && checks.itemOk(p.item) && IsTrimmed(p.related)
  {
    var h := ArticleHead(a, cutoff);
    if h.HeadSkipped? then Skip
    else if h.HeadEscapes? then Escape
    else
      var related, source, summary := TextField(a.related), TextField(a.source), TextField(a.summary);
      if related.None? || source.None? || summary.None? then Skip
      else
        var item := NewsItem(h.url, h.headline, h.published, SourceOrDefault(source.value),
                             Macro, ContentOf(summary.value));
        if checks.itemOk(item) then Ready(item, related.value) else Skip
  }

  /** A well-formed article with a readable `related` field, under record
      checks that accept it, becomes a record exactly when it was published
      after the cutoff; the record holds the stripped headline and url, the
      epoch, the source or "Finnhub", and the summary or None. */
  lemma PrepareItemFields(a: Article, cutoff: Option<int>, checks: RecordChecks)
    requires WellFormed(a) && !a.related.Mistyped?
    requires forall i :: checks.itemOk(i)
    ensures var p := PrepareItem(a, cutoff, checks);
      && (p.Ready? <==> cutoff.None? || a.datetime.value > cutoff.value)
      && (p.Ready? ==>
            && p.item.headline == Strip(a.headline.value)
            && p.item.url == Strip(a.url.value)
            && p.item.published == a.datetime.value
            && p.item.source == SourceOrDefault(TextField(a.source).value)
            && p.item.content == ContentOf(TextField(a.summary).value)
            && p.related == TextField(a.related).value)
  {
    WellFormedHead(a, cutoff);
    var related, source, summary := TextField(a.related), TextField(a.source), TextField(a.summary);
    assert related.Some? && source.Some? && summary.Some?;
    if cutoff.None? || a.datetime.value > cutoff.value {
      var item := NewsItem(Strip(a.url.value), Strip(a.headline.value), a.datetime.value,
                           SourceOrDefault(source.value), Macro, ContentOf(summary.value));
      assert checks.itemOk(item);
      assert PrepareItem(a, cutoff, checks) == Ready(item, related.value);
    } else {
      assert PrepareItem(a, cutoff, checks) == Skip;
    }
  }

  /** `_parse_article` for a mapping: no entries, one entry per symbol, or an
      exception that escapes. */
  function MacroArticle(a: Article, cutoff: Option<int>, watch: seq<string>, checks: RecordChecks): (o: ArticleOutcome)
    ensures o.Escapes? <==> ArticleHead(a, cutoff).HeadEscapes?
  {
    match PrepareItem(a, cutoff, checks)
    case Skip => Parsed([])
    case Escape => Escapes
    case Ready(item, related) => Parsed(EntriesFor(item, ExtractSymbols(related, watch), checks))
  }

  /** What every macro entry satisfies. */
  predicate MacroEntryShape(e: NewsEntry, watch: seq<string>, cutoff: Option<int>) {
    && (e.symbol == MarketSymbol || (e.symbol in watch && IsSymbolShape(e.symbol)))
    && e.isImportant == Unclassified
    && MacroItemShape(e.article, cutoff)
  }

  lemma MacroArticleShape(a: Article, cutoff: Option<int>, watch: seq<string>, checks: RecordChecks)
    requires IsNormalized(watch)
    ensures var o := MacroArticle(a, cutoff, watch, checks);
      o.Parsed? ==> forall e :: e in o.entries ==> MacroEntryShape(e, watch, cutoff)
  {
    var p := PrepareItem(a, cutoff, checks);
    if p.Ready? {
      var syms := ExtractSymbols(p.related, watch);
      assert MacroArticle(a, cutoff, watch, checks) == Parsed(EntriesFor(p.item, syms, checks));
      if syms != [MarketSymbol] {
        ExtractSymbolsMatched(p.related, watch);
        assert forall s :: s in syms ==> s in watch && IsSymbolShape(s);
      }
    }
  }

  /** An article whose `related` text is blank, or names no watched
      well-formed symbol, is filed exactly once, under `MARKET`. */
  lemma FallbackToMarket(a: Article, cutoff: Option<int>, watch: seq<string>, checks: RecordChecks)
    requires IsNormalized(watch)
    requires PrepareItem(a, cutoff, checks).Ready?
    requires var related := PrepareItem(a, cutoff, checks).related;
      AllSpace(related) || forall t :: t in Tokens(related) ==> !(IsSymbolShape(t) && t in watch)
    requires forall e :: checks.entryOk(e)
    ensures MacroArticle(a, cutoff, watch, checks) ==
      Parsed([NewsEntry(PrepareItem(a, cutoff, checks).item, MarketSymbol, Unclassified)])
  {
    var p := PrepareItem(a, cutoff, checks);
    ExtractSymbolsFallback(p.related, watch);
    EntriesForOne(p.item, MarketSymbol, checks);
    assert MacroArticle(a, cutoff, watch, checks) == Parsed(EntriesFor(p.item, ExtractSymbols(p.related, watch), checks));
  }

  lemma EntriesForOne(item: NewsItem, sym: string, checks: RecordChecks)
    requires checks.entryOk(NewsEntry(item, sym, Unclassified))
    ensures EntriesFor(item, [sym], checks) == [NewsEntry(item, sym, Unclassified)]
  {
    assert [sym][..0] == [];
  }

  /** A blank headline, a blank url or a non-positive epoch yields nothing. */
  lemma BlankArticleYieldsNothing(a: Article, cutoff: Option<int>, watch: seq<string>, checks: RecordChecks)
    requires a.Article?
    requires || TextField(a.headline) == Some([])
             || TextField(a.url) == Some([])
             || (EpochField(a.datetime).Some? && EpochField(a.datetime).value <= 0)
    ensures MacroArticle(a, cutoff, watch, checks) == Parsed([])
  {
  }

  /** `isinstance(article.get("id"), int) and article["id"] > min_id`. */
  predicate IsNewer(a: Article, minId: int) {
    a.Article? && a.id.Has? && a.id.value > minId
  }

  function Newer(minId: int): Article -> bool {
    (a: Article) => IsNewer(a, minId)
  }

  /** The articles with an integer id above `minId`, in response order: the
      filter keeps exactly the newer articles. */
  function KeepNewer(items: seq<Article>, minId: int): (r: seq<Article>)
    ensures |r| <= |items|
    ensures forall a :: a in r <==> a in items && IsNewer(a, minId)
  {
    Filter(items, Newer(minId))
  }

  lemma KeepNewerAppend(a: seq<Article>, b: seq<Article>, minId: int)
    ensures KeepNewer(a + b, minId) == KeepNewer(a, minId) + KeepNewer(b, minId)
  {
    FilterAppend(a, b, Newer(minId));
  }

  /** The id filter; it raises (`None`) when an element is not a mapping. */
  function IdFilter(items: seq<Article>, minId: int): (r: Option<seq<Article>>)
    ensures r.None? <==> exists k :: 0 <= k < |items| && items[k].NotAMapping?
  {
    if exists k :: 0 <= k < |items| && items[k].NotAMapping? then None
    else Some(KeepNewer(items, minId))
  }

  /** The articles a fetch goes on to parse. */
  function Considered(items: seq<Article>, minId: Option<int>): (r: Option<seq<Article>>)
    ensures minId.None? ==> r == Some(items)
    ensures minId.Some? ==> (r.None? <==> exists k :: 0 <= k < |items| && items[k].NotAMapping?)
    ensures minId.Some? && r.Some? ==> forall a :: a in r.value <==> a in items && IsNewer(a, minId.value)
  {
    match minId
    case None => Some(items)
    case Some(m) => IdFilter(items, m)
  }

  predicate HasPositiveId(a: Article) {
    a.Article? && a.id.Has? && a.id.value > 0
  }

  /** `max(ids) if ids else None` over the positive integer ids. */
  function MaxPositiveId(items: seq<Article>): (r: Option<int>)
    ensures r.None? <==> forall a :: a in items ==> !HasPositiveId(a)
    ensures r.Some? ==> r.value > 0 && exists a :: a in items && HasPositiveId(a) && a.id.value == r.value
    ensures r.Some? ==> forall a :: a in items && HasPositiveId(a) ==> a.id.value <= r.value
    decreases |items|
  {
    if items == [] then None
    else
      var rest := MaxPositiveId(items[1..]);
      assert forall a :: a in items <==> a == items[0] || a in items[1..];
      if !HasPositiveId(items[0]) then rest
      else if rest.None? || items[0].id.value > rest.value then Some(items[0].id.value)
      else rest
  }

  /** The buffer cutoff: `now - 2 days` on a first run, none otherwise. */
  function MacroCutoff(minId: Option<int>, now: int): (c: Option<int>)
    ensures c.Some? <==> minId.None?
  {
    if minId.None? then Some(now - LookbackSeconds) else None
  }

  /** One turn of the article loop: a non-mapping makes the `except` handler
      itself raise, so it escapes. */
  function LoopOutcome(a: Article, cutoff: Option<int>, watch: seq<string>, checks: RecordChecks): (o: ArticleOutcome)
    ensures o.Escapes? <==> a.NotAMapping? || ArticleHead(a, cutoff).HeadEscapes?
    ensures a.Article? ==> o == MacroArticle(a, cutoff, watch, checks)
  {
    if a.NotAMapping? then Escapes else MacroArticle(a, cutoff, watch, checks)
  }

  /** The outcome of each article, in response order. */
  function MacroEach(arts: seq<Article>, cutoff: Option<int>, watch: seq<string>, checks: RecordChecks): (outs: seq<ArticleOutcome>)
    ensures |outs| == |arts|
    decreases |arts|
  {
    if arts == [] then []
    else MacroEach(arts[..|arts| - 1], cutoff, watch, checks) + [LoopOutcome(arts[|arts| - 1], cutoff, watch, checks)]
  }

  lemma {:induction false} MacroEachAt(arts: seq<Article>, k: nat, cutoff: Option<int>, watch: seq<string>, checks: RecordChecks)
    requires k < |arts|
    ensures MacroEach(arts, cutoff, watch, checks)[k] == LoopOutcome(arts[k], cutoff, watch, checks)
    decreases |arts|
  {
    if k < |arts| - 1 {
      var init := arts[..|arts| - 1];
      MacroEachAt(init, k, cutoff, watch, checks);
      assert init[k] == arts[k];
    }
  }

  lemma {:induction false} MacroEachAppend(a: seq<Article>, b: seq<Article>, cutoff: Option<int>, watch: seq<string>, checks: RecordChecks)
    ensures MacroEach(a + b, cutoff, watch, checks) == MacroEach(a, cutoff, watch, checks) + MacroEach(b, cutoff, watch, checks)
    decreases |b|
  {
    if b == [] {
      assert a + b == a;
      assert MacroEach(a, cutoff, watch, checks) + [] == MacroEach(a, cutoff, watch, checks);
    } else {
      var b' := b[..|b| - 1];
      MacroEachAppend(a, b', cutoff, watch, checks);
      assert (a + b)[..|a + b| - 1] == a + b';
      assert (a + b)[|a + b| - 1] == b[|b| - 1];
    }
  }

  /** What a successful fetch returns and the new `last_fetched_max_id`. */
  datatype MacroBatch = MacroBatch(entries: seq<NewsEntry>, maxId: Option<int>)

  /** `fetch_incremental(min_id=...)` at clock reading `now`, given the
      response to its one request. */
  function MacroFetch(watch: seq<string>, minId: Option<int>, now: int, resp: Response, checks: RecordChecks): (r: Result<MacroBatch, FetchError>)
    ensures resp.Failed? ==> r == Failure(ClientFailure(resp.kind))
    ensures resp.NotAList? ==> r == Failure(Structural(StructuralError))
  {
    match resp
    case Failed(kind) => Failure(ClientFailure(kind))
    case NotAList => Failure(Structural(StructuralError))
    case Articles(items) =>
      match Considered(items, minId)
      case None => Failure(UncaughtException)
      case Some(arts) =>
        match Collect(MacroEach(arts, MacroCutoff(minId, now), watch, checks))
        case None => Failure(UncaughtException)
        case Some(es) => Success(MacroBatch(es, MaxPositiveId(arts)))
  }

  /** With `min_id` the cursor only moves forward: a new maximum id is above
      `min_id`. */
  lemma CursorAdvances(watch: seq<string>, minId: int, now: int, resp: Response, checks: RecordChecks)
    requires MacroFetch(watch, Some(minId), now, resp, checks).Success?
    requires MacroFetch(watch, Some(minId), now, resp, checks).value.maxId.Some?
    ensures MacroFetch(watch, Some(minId), now, resp, checks).value.maxId.value > minId
  {
    var arts := Considered(resp.items, Some(minId)).value;
    var m := MaxPositiveId(arts).value;
    var a :| a in arts && HasPositiveId(a) && a.id.value == m;
  }

  /** The maximum id counts every considered article, whether or not it
      yielded entries. */
  lemma MaxIdCoversConsidered(watch: seq<string>, minId: Option<int>, now: int, resp: Response, checks: RecordChecks)
    requires MacroFetch(watch, minId, now, resp, checks).Success?
    ensures var b := MacroFetch(watch, minId, now, resp, checks).value;
      && (forall a :: a in resp.items && HasPositiveId(a) && (minId.None? || a.id.value > minId.value) ==>
            b.maxId.Some? && a.id.value <= b.maxId.value)
      && (b.maxId.Some? ==> exists a :: a in resp.items && HasPositiveId(a) && a.id.value == b.maxId.value)
  {
    if minId.Some? {
    }
  }

  /** An article without a newer integer id does not affect a fetch with
      `min_id`. */
  lemma OldArticleIgnored(watch: seq<string>, minId: int, now: int, pre: seq<Article>, a: Article, post: seq<Article>, checks: RecordChecks)
    requires a.Article? && !IsNewer(a, minId)
    ensures MacroFetch(watch, Some(minId), now, Articles(pre + [a] + post), checks)
         == MacroFetch(watch, Some(minId), now, Articles(pre + post), checks)
  {
    ConsideredIgnoresOld(minId, pre, a, post);
  }

  /** An article without a newer id drops out of the id filter, and it is
      a mapping, so it cannot make the filter raise. */
  lemma ConsideredIgnoresOld(minId: int, pre: seq<Article>, a: Article, post: seq<Article>)
    requires a.Article? && !IsNewer(a, minId)
    ensures Considered(pre + [a] + post, Some(minId)) == Considered(pre + post, Some(minId))
  {
    KeepNewerAppend(pre, [a], minId);
    KeepNewerAppend(pre + [a], post, minId);
    KeepNewerAppend(pre, post, minId);
    assert KeepNewer([a], minId) == [] by {
      FilterSnoc([], a, Newer(minId));
    }
    assert KeepNewer(pre, minId) + [] == KeepNewer(pre, minId);
    var whole, rest := pre + [a] + post, pre + post;
    assert (exists k :: 0 <= k < |whole| && whole[k].NotAMapping?) <==>
           (exists k :: 0 <= k < |rest| && rest[k].NotAMapping?) by {
      if k :| 0 <= k < |whole| && whole[k].NotAMapping? {
        assert k != |pre|;
        if k < |pre| { assert rest[k] == whole[k]; } else { assert rest[k - 1] == whole[k]; }
      }
      if k :| 0 <= k < |rest| && rest[k].NotAMapping? {
        if k < |pre| { assert whole[k] == rest[k]; } else { assert whole[k + 1] == rest[k]; }
      }
    }
  }

  /** On a first run every entry was published within the last two days;
      with `min_id` the result does not depend on the clock. */
  lemma FirstRunLookback(watch: seq<string>, minId: Option<int>, now: int, now': int, resp: Response, checks: RecordChecks)
    requires IsNormalized(watch)
    ensures var r := MacroFetch(watch, minId, now, resp, checks);
      minId.None? && r.Success? ==> forall e :: e in r.value.entries ==> e.article.published > now - LookbackSeconds
    ensures minId.Some? ==> MacroFetch(watch, minId, now, resp, checks) == MacroFetch(watch, minId, now', resp, checks)
  {
    var r := MacroFetch(watch, minId, now, resp, checks);
    if r.Success? {
      MacroFetchShape(watch, minId, now, resp, checks);
    }
  }

  /** Every entry of a successful fetch has the macro shape. */
  lemma MacroFetchShape(watch: seq<string>, minId: Option<int>, now: int, resp: Response, checks: RecordChecks)
    requires IsNormalized(watch)
    requires MacroFetch(watch, minId, now, resp, checks).Success?
    ensures forall e :: e in MacroFetch(watch, minId, now, resp, checks).value.entries ==>
      MacroEntryShape(e, watch, MacroCutoff(minId, now))
  {
    var arts := Considered(resp.items, minId).value;
    var cutoff := MacroCutoff(minId, now);
    var outs := MacroEach(arts, cutoff, watch, checks);
    forall k | 0 <= k < |outs| && outs[k].Parsed?
      ensures forall e :: e in outs[k].entries ==> MacroEntryShape(e, watch, cutoff)
    {
      MacroEachAt(arts, k, cutoff, watch, checks);
      MacroArticleShape(arts[k], cutoff, watch, checks);
    }
    CollectMacroShape(outs, watch, cutoff);
  }

  lemma {:induction false} CollectMacroShape(outs: seq<ArticleOutcome>, watch: seq<string>, cutoff: Option<int>)
    requires forall k :: 0 <= k < |outs| && outs[k].Parsed? ==>
      forall e :: e in outs[k].entries ==> MacroEntryShape(e, watch, cutoff)
    requires Collect(outs).Some?
    ensures forall e :: e in Collect(outs).value ==> MacroEntryShape(e, watch, cutoff)
    decreases |outs|
  {
    if outs != [] {
      var init := outs[..|outs| - 1];
      assert forall k :: 0 <= k < |init| ==> init[k] == outs[k];
      CollectMacroShape(init, watch, cutoff);
    }
  }

  /** An article that yields no entries (blank fields, filtered by the
      lookback, rejected by the record checks) does not change the entries
      of the others. */
  lemma SilentArticleIsInvisible(pre: seq<Article>, a: Article, post: seq<Article>, cutoff: Option<int>, watch: seq<string>, checks: RecordChecks)
    requires LoopOutcome(a, cutoff, watch, checks) == Parsed([])
    ensures Collect(MacroEach(pre + [a] + post, cutoff, watch, checks)) == Collect(MacroEach(pre + post, cutoff, watch, checks))
  {
    MacroEachAppend(pre, [a], cutoff, watch, checks);
    MacroEachAppend(pre + [a], post, cutoff, watch, checks);
    MacroEachAppend(pre, post, cutoff, watch, checks);
    SilentOutcomeIsInvisible(MacroEach(pre, cutoff, watch, checks), MacroEach(post, cutoff, watch, checks));
  }

  lemma MacroEachSnoc(arts: seq<Article>, j: nat, cutoff: Option<int>, watch: seq<string>, checks: RecordChecks)
    requires j < |arts|
    ensures MacroEach(arts[..j + 1], cutoff, watch, checks)
      == MacroEach(arts[..j], cutoff, watch, checks) + [LoopOutcome(arts[j], cutoff, watch, checks)]
  {
    assert arts[..j + 1][..j] == arts[..j];
  }

  /** One turn of the parse loop: the outcome of article `j` either stops the
      whole loop or extends what the earlier articles added. */
  lemma CollectStep(arts: seq<Article>, j: nat, cutoff: Option<int>, watch: seq<string>, checks: RecordChecks,
                    entries: seq<NewsEntry>, o: ArticleOutcome)
    requires j < |arts|
    requires Collect(MacroEach(arts[..j], cutoff, watch, checks)) == Some(entries)
    requires o == LoopOutcome(arts[j], cutoff, watch, checks)
    ensures o.Escapes? ==> Collect(MacroEach(arts, cutoff, watch, checks)).None?
    ensures o.Parsed? ==> Collect(MacroEach(arts[..j + 1], cutoff, watch, checks)) == Some(entries + o.entries)
  {
    MacroEachSnoc(arts, j, cutoff, watch, checks);
    CollectSnoc(MacroEach(arts[..j], cutoff, watch, checks), o);
    if o.Escapes? {
      MacroEachAt(arts, j, cutoff, watch, checks);
      assert MacroEach(arts, cutoff, watch, checks)[j].Escapes?;
    }
  }

  /** The symbol loop of `_parse_article`: one entry per symbol, skipping
      those the `NewsEntry` checks reject. */
  method BuildEntries(item: NewsItem, syms: seq<string>, checks: RecordChecks) returns (entries: seq<NewsEntry>)
    ensures entries == EntriesFor(item, syms, checks)
  {
    entries := [];
    for i := 0 to |syms|
      invariant entries == EntriesFor(item, syms[..i], checks)
    {
      assert syms[..i + 1][..i] == syms[..i];
      var e := NewsEntry(item, syms[i], Unclassified);
      if checks.entryOk(e) {
        entries := entries + [e];
      }
    }
    assert syms[..|syms|] == syms;
  }

  class FinnhubMacroNewsProvider {
    const sourceName: string
    /** The watchlist, stripped and upper-cased, blanks dropped. */
    const symbols: seq<string>
    /** The largest positive article id seen by the last successful fetch. */
    var lastFetchedMaxId: Option<int>

    constructor (name: string, watchlist: seq<string>)
      requires name != [] && IsTrimmed(name) && |name| <= MaxSourceNameLength
      ensures sourceName == name
      ensures symbols == NormalizeList(watchlist)
      ensures lastFetchedMaxId == None
    {
      sourceName := name;
      symbols := NormalizeList(watchlist);
      lastFetchedMaxId := None;
    }

    /** `FinnhubMacroNewsProvider(settings, symbols, source_name)`. */
    static method Create(sourceName: Raw, watchlist: seq<string>) returns (r: Result<FinnhubMacroNewsProvider, InitError>)
      ensures CheckSourceName(sourceName).Failure? ==> r == Failure(CheckSourceName(sourceName).error)
      ensures r.Success? ==>
        && fresh(r.value)
        && r.value.sourceName == CheckSourceName(sourceName).value
        && r.value.symbols == NormalizeList(watchlist)
        && r.value.lastFetchedMaxId == None
    {
      var name := CheckSourceName(sourceName);
      if name.Failure? {
        return Failure(name.error);
      }
      var p := new FinnhubMacroNewsProvider(name.value, watchlist);
      return Success(p);
    }

    /** `_parse_article`: the head checks, then one entry per symbol of the
        article. */
    method ParseArticle(a: Article, cutoff: Option<int>, checks: RecordChecks) returns (o: ArticleOutcome)
      ensures o == MacroArticle(a, cutoff, symbols, checks)
    {
      var p := PrepareItem(a, cutoff, checks);
      if p.Skip? {
        return Parsed([]);
      }
      if p.Escape? {
        return Escapes;
      }
      var entries := BuildEntries(p.item, ExtractSymbols(p.related, symbols), checks);
      return Parsed(entries);
    }

    /** One element of the response inside the parse loop: a non-mapping
        element raises from the loop's own exception handler. */
    method LoopStep(a: Article, cutoff: Option<int>, checks: RecordChecks) returns (o: ArticleOutcome)
      ensures o == LoopOutcome(a, cutoff, symbols, checks)
    {
      if a.NotAMapping? {
        return Escapes;
      }
      o := ParseArticle(a, cutoff, checks);
    }

    /** The loop of `fetch_incremental` over the considered articles: the
        entries they add, in response order, or `None` once an exception
        escapes. */
    method ParseAll(articles: seq<Article>, cutoff: Option<int>, checks: RecordChecks)
      returns (found: Option<seq<NewsEntry>>)
      ensures found == Collect(MacroEach(articles, cutoff, symbols, checks))
    {
      var entries: seq<NewsEntry> := [];
      var j := 0;
      while j < |articles|
        invariant 0 <= j <= |articles|
        invariant Collect(MacroEach(articles[..j], cutoff, symbols, checks)) == Some(entries)
      {
        var o := LoopStep(articles[j], cutoff, checks);
        CollectStep(articles, j, cutoff, symbols, checks, entries, o);
        if o.Escapes? {
          return None;
        }
        entries := entries + o.entries;
        j := j + 1;
      }
      assert articles[..j] == articles;
      return Some(entries);
    }

    /** `fetch_incremental(min_id=...)` at clock reading `now`: one request,
        then the entries or the error; the cursor field changes only when the
        fetch succeeds. */
    method FetchIncremental(minId: Option<int>, now: int, client: Request -> Response, checks: RecordChecks)
      returns (result: Result<seq<NewsEntry>, FetchError>)
      modifies this
      ensures var spec := MacroFetch(symbols, minId, now, client(GeneralNews(minId)), checks);
        && (spec.Success? ==> result == Success(spec.value.entries) && lastFetchedMaxId == spec.value.maxId)
        && (spec.Failure? ==> result == Failure(spec.error) && lastFetchedMaxId == old(lastFetchedMaxId))
    {
      var cutoff := MacroCutoff(minId, now);
      var resp := client(GeneralNews(minId));
      if resp.Failed? {
        return Failure(ClientFailure(resp.kind));
      }
      if resp.NotAList? {
        return Failure(Structural(StructuralError));
      }
      var articles := resp.items;
      if minId.Some? {
        var filtered := IdFilter(articles, minId.value);
        if filtered.None? {
          return Failure(UncaughtException);
        }
        articles := filtered.value;
      }
      assert Considered(resp.items, minId) == Some(articles);
      var found := ParseAll(articles, cutoff, checks);
      if found.None? {
        return Failure(UncaughtException);
      }
      lastFetchedMaxId := MaxPositiveId(articles);
      return Success(found.value);
    }
  }
}
