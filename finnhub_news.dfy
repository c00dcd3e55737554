/** `FinnhubNewsProvider` (data/providers/finnhub/finnhub_news.py): company
    news fetched per watched symbol over a date-only window, with a strict
    two-minute buffer filter against the `since` cursor. */
module FinnhubNews {
  import opened Basics
  import opened Text
  import opened Symbols
  import opened DataSource
  import opened NewsModel

  /** The overlap subtracted from `since` (`timedelta(minutes=2)`). */
  const BufferSeconds := 120
  /** The first-run lookback (`timedelta(days=2)`). */
  const LookbackSeconds := 2 * SecondsPerDay

  /** The request parameters `from`/`to` (as `Day` numbers) and the buffer
      cutoff every article is compared with (`None`: no buffer filter). */
  datatype Window = Window(fromDay: int, toDay: int, cutoff: Option<int>)

  function RequestWindow(since: Option<int>, now: int): (w: Window)
    ensures w.toDay == Day(now)
    ensures w.cutoff.Some? <==> since.Some?
    ensures since.Some? ==> w.cutoff.value == since.value - BufferSeconds
    ensures since.Some? ==> w.fromDay == Day(since.value - BufferSeconds)
    ensures since.None? ==> w.fromDay == Day(now - LookbackSeconds)
  {
    match since
    case Some(t) => Window(Day(t - BufferSeconds), Day(now), Some(t - BufferSeconds))
    case None => Window(Day(now - LookbackSeconds), Day(now), None)
  }

  /** The date window never excludes an article the exact filter would keep:
      every instant after the buffer start (or, on a first run, within the
      lookback) and not after `now` falls on a requested day. */
  lemma WindowCovers(since: Option<int>, now: int, t: int)
    requires t <= now
    requires since.Some? ==> t > since.value - BufferSeconds
    requires since.None? ==> t >= now - LookbackSeconds
    ensures RequestWindow(since, now).fromDay <= Day(t) <= RequestWindow(since, now).toDay
  {
    var w := RequestWindow(since, now);
    DayMonotone(t, now);
    match since
    case Some(s) => DayMonotone(s - BufferSeconds, t);
    case None => DayMonotone(now - LookbackSeconds, t);
  }

  /** Without `since` the window is exactly the last three calendar days; with
      it, it starts on the day of `since` or the day before. */
  lemma WindowStart(since: Option<int>, now: int)
    ensures since.None? ==> RequestWindow(since, now).fromDay == Day(now) - 2
    ensures since.Some? ==>
      Day(since.value) - 1 <= RequestWindow(since, now).fromDay <= Day(since.value)
  {
    DayBounds(now);
    if since.Some? {
      var s := since.value;
      DayMonotone(s - BufferSeconds, s);
      DayBounds(s);
      DayBounds(s - BufferSeconds);
    }
  }

  /** 2024-01-13T05:00Z as `since` and 2024-01-15T10:00Z as now ask for
      2024-01-13 (day 19735) to 2024-01-15 (day 19737); so does a first run. */
  lemma WindowExample()
    ensures RequestWindow(Some(1705122000), 1705312800) == Window(19735, 19737, Some(1705121880))
    ensures RequestWindow(None, 1705312800) == Window(19735, 19737, None)
  {
  }

  /** What every company entry satisfies. */
  predicate CompanyEntryShape(e: NewsEntry, symbol: string, cutoff: Option<int>) {
    && e.symbol == symbol
    && e.isImportant == Important
    && e.article.newsType == CompanySpecific
    && e.article.headline != [] && IsTrimmed(e.article.headline)
    && e.article.url != [] && IsTrimmed(e.article.url)
    && e.article.source != [] && IsTrimmed(e.article.source)
    && (e.article.content.Some? ==> e.article.content.value != [] && IsTrimmed(e.article.content.value))
    && 0 < e.article.published <= MaxDatetimeEpoch
    && (cutoff.Some? ==> e.article.published > cutoff.value)
  }

  /** `_parse_article`: at most one entry, or an exception that escapes. */
  function ParseArticle(a: Article, symbol: string, cutoff: Option<int>, checks: RecordChecks): (o: ArticleOutcome)
    ensures o.Parsed? ==> |o.entries| <= 1
    ensures o.Parsed? ==> forall e :: e in o.entries ==> CompanyEntryShape(e, symbol, cutoff)
    ensures o.Escapes? <==> ArticleHead(a, cutoff).HeadEscapes?
  {
    var h := ArticleHead(a, cutoff);
    if h.HeadSkipped? then Parsed([])
    else if h.HeadEscapes? then Escapes
    else
      var source, summary := TextField(a.source), TextField(a.summary);
      if source.None? || summary.None? then Parsed([])
      else
        var item := NewsItem(h.url, h.headline, h.published, SourceOrDefault(source.value),
                             CompanySpecific, ContentOf(summary.value));
        var entry := NewsEntry(item, symbol, Important);
        if checks.itemOk(item) && checks.entryOk(entry) then Parsed([entry]) else Parsed([])
  }

  /** A blank headline, a blank url or a non-positive epoch yields nothing,
      whatever the other fields hold. */
  lemma BlankArticleYieldsNothing(a: Article, symbol: string, cutoff: Option<int>, checks: RecordChecks)
    requires a.Article?
    requires || TextField(a.headline) == Some([])
             || TextField(a.url) == Some([])
             || (EpochField(a.datetime).Some? && EpochField(a.datetime).value <= 0)
    ensures ParseArticle(a, symbol, cutoff, checks) == Parsed([])
  {
  }

  /** The buffer filter is strict: a well-formed article is kept exactly when
      it was published after the cutoff; source and content take their
      defaults. */
  lemma BufferFilterStrict(a: Article, symbol: string, cutoff: int, checks: RecordChecks)
    requires WellFormed(a)
    requires forall i :: checks.itemOk(i)
    requires forall e :: checks.entryOk(e)
    ensures var o := ParseArticle(a, symbol, Some(cutoff), checks);
      && o.Parsed?
      && (|o.entries| == 1 <==> a.datetime.value > cutoff)
      && (|o.entries| == 1 ==>
            && o.entries[0].article.published == a.datetime.value
            && o.entries[0].article.source == SourceOrDefault(TextField(a.source).value)
            && o.entries[0].article.content == ContentOf(TextField(a.summary).value))
  {
    WellFormedHead(a, Some(cutoff));
    if a.datetime.value > cutoff {
      var item := NewsItem(Strip(a.url.value), Strip(a.headline.value), a.datetime.value,
                           SourceOrDefault(TextField(a.source).value), CompanySpecific, ContentOf(TextField(a.summary).value));
      assert checks.itemOk(item) && checks.entryOk(NewsEntry(item, symbol, Important));
      assert ParseArticle(a, symbol, Some(cutoff), checks) == Parsed([NewsEntry(item, symbol, Important)]);
    } else {
      assert ParseArticle(a, symbol, Some(cutoff), checks) == Parsed([]);
    }
  }

  /** What one symbol's request contributes: its entries in response order,
      nothing when the request failed in a way the loop catches, or the error
      that aborts the fetch. */
  function SymbolStep(symbol: string, resp: Response, cutoff: Option<int>, checks: RecordChecks): (r: Result<seq<NewsEntry>, FetchError>)
    ensures resp.NotAList? ==> r == Failure(Structural(StructuralError))
    ensures resp.Failed? ==> (r.Failure? <==> resp.kind == Unexpected)
    ensures resp.Failed? && resp.kind != Unexpected ==> r == Success([])
    ensures r.Success? ==> forall e :: e in r.value ==> CompanyEntryShape(e, symbol, cutoff)
  {
    match resp
    case Failed(kind) => if kind == Unexpected then Failure(ClientFailure(kind)) else Success([])
    case NotAList => Failure(Structural(StructuralError))
    case Articles(items) =>
      match Collect(ParseEach(items, symbol, cutoff, checks))
      case None => Failure(UncaughtException)
      case Some(es) =>
        CollectShape(items, symbol, cutoff, checks);
        Success(es)
  }

  /** The outcome of each article of a response, in response order. */
  function ParseEach(items: seq<Article>, symbol: string, cutoff: Option<int>, checks: RecordChecks): (outs: seq<ArticleOutcome>)
    ensures |outs| == |items|
    decreases |items|
  {
    if items == [] then []
    else ParseEach(items[..|items| - 1], symbol, cutoff, checks) + [ParseArticle(items[|items| - 1], symbol, cutoff, checks)]
  }

  lemma {:induction false} ParseEachAt(items: seq<Article>, k: nat, symbol: string, cutoff: Option<int>, checks: RecordChecks)
    requires k < |items|
    ensures ParseEach(items, symbol, cutoff, checks)[k] == ParseArticle(items[k], symbol, cutoff, checks)
    decreases |items|
  {
    if k < |items| - 1 {
      var init := items[..|items| - 1];
      ParseEachAt(init, k, symbol, cutoff, checks);
      assert init[k] == items[k];
    }
  }

  lemma ParseEachSnoc(items: seq<Article>, j: nat, symbol: string, cutoff: Option<int>, checks: RecordChecks)
    requires j < |items|
    ensures ParseEach(items[..j + 1], symbol, cutoff, checks)
      == ParseEach(items[..j], symbol, cutoff, checks) + [ParseArticle(items[j], symbol, cutoff, checks)]
  {
    assert items[..j + 1][..j] == items[..j];
  }

  /** Every entry a symbol's article loop collects has the company shape. */
  lemma {:induction false} CollectShape(items: seq<Article>, symbol: string, cutoff: Option<int>, checks: RecordChecks)
    requires Collect(ParseEach(items, symbol, cutoff, checks)).Some?
    ensures forall e :: e in Collect(ParseEach(items, symbol, cutoff, checks)).value ==> CompanyEntryShape(e, symbol, cutoff)
    decreases |items|
  {
    if items != [] {
      var init := items[..|items| - 1];
      var o := ParseArticle(items[|items| - 1], symbol, cutoff, checks);
      CollectSnoc(ParseEach(init, symbol, cutoff, checks), o);
      CollectShape(init, symbol, cutoff, checks);
    }
  }

  function RequestFor(symbol: string, w: Window): Request {
    CompanyNews(symbol, w.fromDay, w.toDay)
  }

  /** The requests made and the outcome after the loop has handled `symbols`. */
  datatype FetchRun = FetchRun(calls: seq<Request>, result: Result<seq<NewsEntry>, FetchError>)

  /** What one symbol's turn of the loop does: the request it makes and what
      that request contributes. */
  datatype Turn = Turn(req: Request, outcome: Result<seq<NewsEntry>, FetchError>)

  /** The turn of each symbol: its company-news request for the window and
      the outcome of the client's response to it. */
  function TurnFor(w: Window, client: Request -> Response, checks: RecordChecks): string -> Turn {
    s => Turn(RequestFor(s, w), SymbolStep(s, client(RequestFor(s, w)), w.cutoff, checks))
  }

  /** One turn of the symbol loop; once the fetch has failed nothing more
      happens. */
  function Step(prev: FetchRun, t: Turn): (r: FetchRun)
    ensures r.result.Success? <==> prev.result.Success? && t.outcome.Success?
    ensures |r.calls| <= |prev.calls| + 1
  {
    if prev.result.Failure? then prev
    else FetchRun(prev.calls + [t.req], if t.outcome.Failure? then t.outcome else Success(prev.result.value + t.outcome.value))
  }

  /** The loop over `symbols` with the turns given by `turn`. */
  function RunWith(symbols: seq<string>, turn: string -> Turn): (r: FetchRun)
    ensures |r.calls| <= |symbols|
    ensures r.result.Success? ==> |r.calls| == |symbols|
    decreases |symbols|
  {
    if symbols == [] then FetchRun([], Success([]))
    else Step(RunWith(symbols[..|symbols| - 1], turn), turn(symbols[|symbols| - 1]))
  }

  /** The loop of `fetch_incremental` over `symbols`. */
  function Run(symbols: seq<string>, w: Window, client: Request -> Response, checks: RecordChecks): (r: FetchRun)
    ensures |r.calls| <= |symbols|
    ensures r.result.Success? ==> |r.calls| == |symbols|
  {
    RunWith(symbols, TurnFor(w, client, checks))
  }

  /** `rab` is what running `a + b` gives when running `a` gives `ra` and
      running `b` from scratch gives `rb`. */
  predicate Joined(ra: FetchRun, rb: FetchRun, rab: FetchRun) {
    && (ra.result.Failure? ==> rab == ra)
    && (ra.result.Success? ==> rab.calls == ra.calls + rb.calls)
    && (ra.result.Success? && rb.result.Failure? ==> rab.result == rb.result)
    && (ra.result.Success? && rb.result.Success? ==> rab.result == Success(ra.result.value + rb.result.value))
  }

  lemma StepJoined(ra: FetchRun, rb: FetchRun, rab: FetchRun, t: Turn)
    requires Joined(ra, rb, rab)
    ensures Joined(ra, Step(rb, t), Step(rab, t))
  {
    if ra.result.Success? && rb.result.Success? {
      assert (ra.calls + rb.calls) + [t.req] == ra.calls + (rb.calls + [t.req]);
      if t.outcome.Success? {
        assert (ra.result.value + rb.result.value) + t.outcome.value == ra.result.value + (rb.result.value + t.outcome.value);
      }
    }
  }

  lemma {:induction false} RunWithAppend(a: seq<string>, b: seq<string>, turn: string -> Turn)
    ensures Joined(RunWith(a, turn), RunWith(b, turn), RunWith(a + b, turn))
    decreases |b|
  {
    var ra := RunWith(a, turn);
    if b == [] {
      assert a + b == a;
      if ra.result.Success? {
        assert ra.calls + [] == ra.calls;
        assert ra.result.value + [] == ra.result.value;
      }
    } else {
      var b', s := b[..|b| - 1], b[|b| - 1];
      RunWithAppend(a, b', turn);
      assert (a + b)[..|a + b| - 1] == a + b';
      assert (a + b)[|a + b| - 1] == s;
      StepJoined(ra, RunWith(b', turn), RunWith(a + b', turn), turn(s));
    }
  }

  /** Running over a concatenation is running over each part: requests and
      entries of the first part come first, and a failure in the first part
      stops the second from being requested. */
  lemma RunAppend(a: seq<string>, b: seq<string>, w: Window, client: Request -> Response, checks: RecordChecks)
    ensures Joined(Run(a, w, client, checks), Run(b, w, client, checks), Run(a + b, w, client, checks))
  {
    RunWithAppend(a, b, TurnFor(w, client, checks));
  }

  /** Running over one symbol is one step from the start. */
  lemma RunSingle(s: string, turn: string -> Turn)
    ensures RunWith([s], turn) == Step(FetchRun([], Success([])), turn(s))
  {
    assert [s][..0] == [];
  }

  /** A symbol whose request contributes nothing (a caught failure, an empty
      or fully filtered response) leaves the entries of the others unchanged,
      and the symbols after it are still requested. */
  lemma SkippedSymbolIsInvisible(pre: seq<string>, s: string, post: seq<string>, w: Window, client: Request -> Response, checks: RecordChecks)
    requires SymbolStep(s, client(RequestFor(s, w)), w.cutoff, checks) == Success([])
    ensures Run(pre + [s] + post, w, client, checks).result == Run(pre + post, w, client, checks).result
    ensures Run(pre, w, client, checks).result.Success? ==>
      Run(pre + [s] + post, w, client, checks).calls ==
        Run(pre, w, client, checks).calls + [RequestFor(s, w)] + Run(post, w, client, checks).calls
  {
    var turn := TurnFor(w, client, checks);
    var none: seq<NewsEntry> := [];
    assert turn(s) == Turn(RequestFor(s, w), Success(none));
    RunSingle(s, turn);
    assert RunWith([s], turn) == FetchRun([RequestFor(s, w)], Success(none)) by {
      assert none + none == none;
    }
    RunWithAppend(pre, [s], turn);
    RunWithAppend(pre + [s], post, turn);
    RunWithAppend(pre, post, turn);
    var rp := RunWith(pre, turn);
    if rp.result.Success? {
      assert rp.result.value + none == rp.result.value;
    }
  }

  /** A retryable or malformed-response failure of one symbol's request is
      caught: it leaves the entries of the others unchanged, and the symbols
      after it are still requested. */
  lemma CaughtFailureIsInvisible(pre: seq<string>, s: string, post: seq<string>, w: Window, client: Request -> Response, checks: RecordChecks)
    requires client(RequestFor(s, w)).Failed? && client(RequestFor(s, w)).kind != Unexpected
    ensures Run(pre + [s] + post, w, client, checks).result == Run(pre + post, w, client, checks).result
    ensures Run(pre, w, client, checks).result.Success? ==>
      Run(pre + [s] + post, w, client, checks).calls ==
        Run(pre, w, client, checks).calls + [RequestFor(s, w)] + Run(post, w, client, checks).calls
  {
    SkippedSymbolIsInvisible(pre, s, post, w, client, checks);
  }

  /** A non-list response aborts the fetch with a structural error, and no
      later symbol is requested. */
  lemma StructuralErrorAborts(pre: seq<string>, s: string, post: seq<string>, w: Window, client: Request -> Response, checks: RecordChecks)
    requires Run(pre, w, client, checks).result.Success?
    requires client(RequestFor(s, w)) == NotAList
    ensures Run(pre + [s] + post, w, client, checks) ==
      FetchRun(Run(pre, w, client, checks).calls + [RequestFor(s, w)], Failure(Structural(StructuralError)))
  {
    var turn := TurnFor(w, client, checks);
    assert turn(s) == Turn(RequestFor(s, w), Failure(Structural(StructuralError)));
    RunSingle(s, turn);
    RunWithAppend(pre, [s], turn);
    RunWithAppend(pre + [s], post, turn);
  }

  lemma {:induction false} RunWithSuccess(symbols: seq<string>, turn: string -> Turn)
    requires RunWith(symbols, turn).result.Success?
    ensures RunWith(symbols, turn).calls == seq(|symbols|, k requires 0 <= k < |symbols| => turn(symbols[k]).req)
    ensures forall e :: e in RunWith(symbols, turn).result.value ==>
      exists s :: s in symbols && turn(s).outcome.Success? && e in turn(s).outcome.value
    decreases |symbols|
  {
    if symbols != [] {
      var init, s := symbols[..|symbols| - 1], symbols[|symbols| - 1];
      var prev := RunWith(init, turn);
      RunWithSuccess(init, turn);
      assert forall x :: x in init ==> x in symbols;
      var calls := seq(|symbols|, k requires 0 <= k < |symbols| => turn(symbols[k]).req);
      assert calls == prev.calls + [turn(s).req] by {
        forall k | 0 <= k < |init|
          ensures calls[k] == prev.calls[k]
        {
          assert init[k] == symbols[k];
        }
      }
    }
  }

  /** When the fetch succeeds every symbol was requested, in watchlist order,
      and every entry belongs to a watched symbol and has the company shape. */
  lemma RunSuccess(symbols: seq<string>, w: Window, client: Request -> Response, checks: RecordChecks)
    requires Run(symbols, w, client, checks).result.Success?
    ensures Run(symbols, w, client, checks).calls == seq(|symbols|, k requires 0 <= k < |symbols| => RequestFor(symbols[k], w))
    ensures forall e :: e in Run(symbols, w, client, checks).result.value ==>
      e.symbol in symbols && CompanyEntryShape(e, e.symbol, w.cutoff)
  {
    var turn := TurnFor(w, client, checks);
    RunWithSuccess(symbols, turn);
    var calls := RunWith(symbols, turn).calls;
    forall k | 0 <= k < |symbols|
      ensures calls[k] == RequestFor(symbols[k], w)
    {
      assert turn(symbols[k]).req == RequestFor(symbols[k], w);
    }
    forall e | e in RunWith(symbols, turn).result.value
      ensures e.symbol in symbols && CompanyEntryShape(e, e.symbol, w.cutoff)
    {
      var s :| s in symbols && turn(s).outcome.Success? && e in turn(s).outcome.value;
      assert turn(s).outcome == SymbolStep(s, client(RequestFor(s, w)), w.cutoff, checks);
    }
  }

  /** With `since` at epoch 1000 the cutoff is 880: of well-formed articles
      published at 500, 880, 950, 1000 and 1100, those at 950, 1000 and 1100
      are kept, in response order. */
  lemma BufferExample(items: seq<Article>, checks: RecordChecks)
    requires |items| == 5
    requires forall k :: 0 <= k < 5 ==>
      WellFormed(items[k]) && items[k].datetime.value == [500, 880, 950, 1000, 1100][k]
    requires forall i :: checks.itemOk(i)
    requires forall e :: checks.entryOk(e)
    ensures var r := SymbolStep("AAPL", Articles(items), RequestWindow(Some(1000), 2000).cutoff, checks);
      && r.Success? && |r.value| == 3
      && r.value[0].article.published == 950
      && r.value[1].article.published == 1000
      && r.value[2].article.published == 1100
  {
    var outs := ParseEach(items, "AAPL", Some(880), checks);
    BufferOutcomes(items, checks);
    CollectDropsTwo(outs);
    var es := outs[2].entries + outs[3].entries + outs[4].entries;
    assert es[0] == outs[2].entries[0] && es[1] == outs[3].entries[0] && es[2] == outs[4].entries[0];
  }

  lemma BufferOutcomes(items: seq<Article>, checks: RecordChecks)
    requires |items| == 5
    requires forall k :: 0 <= k < 5 ==>
      WellFormed(items[k]) && items[k].datetime.value == [500, 880, 950, 1000, 1100][k]
    requires forall i :: checks.itemOk(i)
    requires forall e :: checks.entryOk(e)
    ensures var outs := ParseEach(items, "AAPL", Some(880), checks);
      && outs[0] == Parsed([]) && outs[1] == Parsed([])
      && outs[2].Parsed? && |outs[2].entries| == 1 && outs[2].entries[0].article.published == 950
      && outs[3].Parsed? && |outs[3].entries| == 1 && outs[3].entries[0].article.published == 1000
      && outs[4].Parsed? && |outs[4].entries| == 1 && outs[4].entries[0].article.published == 1100
  {
    assert WellFormed(items[0]) && items[0].datetime.value == 500;
    assert WellFormed(items[1]) && items[1].datetime.value == 880;
    assert WellFormed(items[2]) && items[2].datetime.value == 950;
    assert WellFormed(items[3]) && items[3].datetime.value == 1000;
    assert WellFormed(items[4]) && items[4].datetime.value == 1100;
    OutcomeAt(items, 0, checks);
    OutcomeAt(items, 1, checks);
    OutcomeAt(items, 2, checks);
    OutcomeAt(items, 3, checks);
    OutcomeAt(items, 4, checks);
  }

  lemma OutcomeAt(items: seq<Article>, k: nat, checks: RecordChecks)
    requires k < |items| && WellFormed(items[k])
    requires forall i :: checks.itemOk(i)
    requires forall e :: checks.entryOk(e)
    ensures var o := ParseEach(items, "AAPL", Some(880), checks)[k];
      && o.Parsed? && |o.entries| <= 1
      && (|o.entries| == 1 <==> items[k].datetime.value > 880)
      && (|o.entries| == 1 ==> o.entries[0].article.published == items[k].datetime.value)
  {
    ParseEachAt(items, k, "AAPL", Some(880), checks);
    BufferFilterStrict(items[k], "AAPL", 880, checks);
  }

  /** Two silent outcomes followed by three parsed ones collect to the
      entries of the last three, in order. */
  lemma CollectDropsTwo(outs: seq<ArticleOutcome>)
    requires |outs| == 5 && outs[0] == Parsed([]) && outs[1] == Parsed([])
    requires outs[2].Parsed? && outs[3].Parsed? && outs[4].Parsed?
    ensures Collect(outs) == Some(outs[2].entries + outs[3].entries + outs[4].entries)
  {
    var none: seq<NewsEntry> := [];
    assert outs[..0] == [] && Collect(outs[..0]) == Some(none);
    assert outs[..1][..0] == outs[..0] && outs[..1][0] == outs[0];
    assert none + none == none;
    assert Collect(outs[..1]) == Some(none);
    assert outs[..2][..1] == outs[..1] && outs[..2][1] == outs[1];
    assert Collect(outs[..2]) == Some(none);
    assert outs[..3][..2] == outs[..2] && outs[..3][2] == outs[2];
    assert none + outs[2].entries == outs[2].entries;
    assert Collect(outs[..3]) == Some(outs[2].entries);
    assert outs[..4][..3] == outs[..3] && outs[..4][3] == outs[3];
    assert Collect(outs[..4]) == Some(outs[2].entries + outs[3].entries);
    assert outs[..4] == outs[..|outs| - 1];
  }

  /** The inner loop of `fetch_incremental` over one symbol's articles: the
      entries they add, in response order, or `None` once an exception
      escapes. */
  method ParseArticles(items: seq<Article>, symbol: string, cutoff: Option<int>, checks: RecordChecks)
    returns (found: Option<seq<NewsEntry>>)
    ensures found == Collect(ParseEach(items, symbol, cutoff, checks))
  {
    var entries: seq<NewsEntry> := [];
    var j := 0;
    while j < |items|
      invariant 0 <= j <= |items|
      invariant Collect(ParseEach(items[..j], symbol, cutoff, checks)) == Some(entries)
    {
      var o := ParseArticle(items[j], symbol, cutoff, checks);
      ParseEachSnoc(items, j, symbol, cutoff, checks);
      CollectAppend(ParseEach(items[..j], symbol, cutoff, checks), [o]);
      CollectSingle(o);
      if o.Escapes? {
        ParseEachAt(items, j, symbol, cutoff, checks);
        return None;
      }
      entries := entries + o.entries;
      j := j + 1;
    }
    assert items[..j] == items;
    return Some(entries);
  }

  /** One turn of the symbol loop: the request for `symbol` and what it
      contributes, skipping the failures the loop catches. */
  method FetchSymbol(symbol: string, w: Window, client: Request -> Response, checks: RecordChecks)
    returns (req: Request, r: Result<seq<NewsEntry>, FetchError>)
    ensures req == RequestFor(symbol, w)
    ensures r == SymbolStep(symbol, client(req), w.cutoff, checks)
  {
    req := RequestFor(symbol, w);
    match client(req) {
      case Failed(kind) =>
        if kind == Unexpected {
          return req, Failure(ClientFailure(kind));
        }
        return req, Success([]);
      case NotAList =>
        return req, Failure(Structural(StructuralError));
      case Articles(items) =>
        var found := ParseArticles(items, symbol, w.cutoff, checks);
        if found.None? {
          return req, Failure(UncaughtException);
        }
        return req, Success(found.value);
    }
  }

  /** Extending a prefix by one symbol is one more turn. */
  lemma RunWithPrefix(symbols: seq<string>, i: nat, turn: string -> Turn)
    requires i < |symbols|
    ensures RunWith(symbols[..i + 1], turn) == Step(RunWith(symbols[..i], turn), turn(symbols[i]))
  {
    var p := symbols[..i + 1];
    assert p[..|p| - 1] == symbols[..i];
    assert p[|p| - 1] == symbols[i];
  }

  /** Once a run has failed, later symbols change nothing. */
  lemma RunWithFailed(symbols: seq<string>, j: nat, turn: string -> Turn)
    requires j <= |symbols|
    requires RunWith(symbols[..j], turn).result.Failure?
    ensures RunWith(symbols, turn) == RunWith(symbols[..j], turn)
  {
    RunWithAppend(symbols[..j], symbols[j..], turn);
    PrefixSuffix(symbols, j);
  }

  lemma PrefixSuffix(s: seq<string>, j: nat)
    requires j <= |s|
    ensures s[..j] + s[j..] == s
  {
  }

  /** After a successful prefix, the next symbol either aborts the whole run
      or extends it by its request and entries. */
  lemma RunWithNext(symbols: seq<string>, i: nat, turn: string -> Turn, calls: seq<Request>, entries: seq<NewsEntry>)
    requires i < |symbols|
    requires RunWith(symbols[..i], turn) == FetchRun(calls, Success(entries))
    ensures turn(symbols[i]).outcome.Failure? ==>
      RunWith(symbols, turn) == FetchRun(calls + [turn(symbols[i]).req], turn(symbols[i]).outcome)
    ensures turn(symbols[i]).outcome.Success? ==>
      RunWith(symbols[..i + 1], turn) == FetchRun(calls + [turn(symbols[i]).req], Success(entries + turn(symbols[i]).outcome.value))
  {
    RunWithPrefix(symbols, i, turn);
    if turn(symbols[i]).outcome.Failure? {
      RunWithFailed(symbols, i + 1, turn);
    }
  }

  class FinnhubNewsProvider {
    const sourceName: string
    /** The watchlist, stripped and upper-cased, blanks dropped. */
    const symbols: seq<string>

    constructor (name: string, watchlist: seq<string>)
      requires name != [] && IsTrimmed(name) && |name| <= MaxSourceNameLength
      ensures sourceName == name
      ensures symbols == NormalizeList(watchlist)
    {
      sourceName := name;
      symbols := NormalizeList(watchlist);
    }

    /** `FinnhubNewsProvider(settings, symbols, source_name)`: the base-class
        name checks, then the watchlist normalisation. */
    static method Create(sourceName: Raw, watchlist: seq<string>) returns (r: Result<FinnhubNewsProvider, InitError>)
      ensures CheckSourceName(sourceName).Failure? ==> r == Failure(CheckSourceName(sourceName).error)
      ensures r.Success? ==>
        && fresh(r.value)
        && r.value.sourceName == CheckSourceName(sourceName).value
        && r.value.symbols == NormalizeList(watchlist)
    {
      var name := CheckSourceName(sourceName);
      if name.Failure? {
        return Failure(name.error);
      }
      var p := new FinnhubNewsProvider(name.value, watchlist);
      return Success(p);
    }

    /** `fetch_incremental(since=...)` at clock reading `now`: the requests it
        makes, in order, and the entries it returns or the error it raises. */
    method FetchIncremental(since: Option<int>, now: int, client: Request -> Response, checks: RecordChecks)
      returns (calls: seq<Request>, result: Result<seq<NewsEntry>, FetchError>)
      ensures FetchRun(calls, result) == Run(symbols, RequestWindow(since, now), client, checks)
      ensures symbols == [] ==> calls == [] && result == Success([])
    {
      if symbols == [] {
        return [], Success([]);
      }
      var w := RequestWindow(since, now);
      var entries: seq<NewsEntry> := [];
      calls := [];
      var i := 0;
      while i < |symbols|
        invariant 0 <= i <= |symbols|
        invariant Run(symbols[..i], w, client, checks) == FetchRun(calls, Success(entries))
      {
        var req, r := FetchSymbol(symbols[i], w, client, checks);
        RunWithNext(symbols, i, TurnFor(w, client, checks), calls, entries);
        calls := calls + [req];
        if r.Failure? {
          return calls, r;
        }
        entries := entries + r.value;
        i := i + 1;
      }
      assert symbols[..i] == symbols;
      result := Success(entries);
    }
  }
}
