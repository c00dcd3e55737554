/** The records, provider responses and article checks shared by the two
    Finnhub news providers (data/providers/finnhub/finnhub_news.py and
    finnhub_macro_news.py). Times are integer UTC epoch seconds. */
module NewsModel {
  import opened Basics
  import opened Text
  import opened DataSource

  const SecondsPerDay := 86400

  /** The UTC calendar date of instant `t`, as days since 1970-01-01
      (`datetime.date()` on a UTC datetime; `/` floors, as dates do). */
  function Day(t: int): int
  {
    t / SecondsPerDay
  }

  lemma DayMonotone(a: int, b: int)
    requires a <= b
    ensures Day(a) <= Day(b)
  {
  }

  /** A day boundary is within one day of any instant of that day. */
  lemma DayBounds(t: int)
    ensures Day(t) * SecondsPerDay <= t < (Day(t) + 1) * SecondsPerDay
  {
  }

  datatype NewsType = CompanySpecific | Macro

  /** The nullable `is_important` flag as a three-valued enum. */
  datatype Importance = Important | NotImportant | Unclassified

  /** `NewsItem`: one article. */
  datatype NewsItem = NewsItem(
    url: string,
    headline: string,
    published: int,
    source: string,
    newsType: NewsType,
    content: Option<string>)

  /** `NewsEntry`: an article paired with one symbol and its importance. */
  datatype NewsEntry = NewsEntry(article: NewsItem, symbol: string, isImportant: Importance)

  /** The constructor validation of `NewsItem` and `NewsEntry` (their
      `ValueError`s), which lives in data/models and is not part of this
      model: it is a parameter of every parse. */
  datatype RecordChecks = RecordChecks(itemOk: NewsItem -> bool, entryOk: NewsEntry -> bool)

  /** One key of a JSON article object: absent, present with a value of the
      type the code expects, or present with a value the code's operations
      reject (`.strip()` on a non-string, `<= 0` on a non-number, an `id`
      that is not an `int`). */
  datatype Field<T> = Missing | Has(value: T) | Mistyped

  /** One element of the JSON list a news endpoint returns. */
  datatype Article =
    | Article(
        headline: Field<string>,
        url: Field<string>,
        datetime: Field<int>,
        source: Field<string>,
        summary: Field<string>,
        related: Field<string>,
        id: Field<int>)
    | NotAMapping

  /** What `client.get` raises: a `RetryableError` once retries are spent, a
      `ValueError`/`TypeError`/`KeyError`/`AttributeError`, or anything else. */
  datatype FailureKind = Retryable | Malformed | Unexpected

  /** The outcome of one `client.get` call. */
  datatype Response = Articles(items: seq<Article>) | NotAList | Failed(kind: FailureKind)

  /** One `client.get` call: `/company-news` with its date window (days as
      `Day` numbers), or `/news?category=general` with an optional `minId`. */
  datatype Request =
    | CompanyNews(symbol: string, fromDay: int, toDay: int)
    | GeneralNews(minId: Option<int>)

  /** Why a whole fetch raised. */
  datatype FetchError =
    | Structural(error: DataSourceError)  // the response was not a list
    | ClientFailure(kind: FailureKind)    // `client.get` raised and nothing caught it
    | UncaughtException                   // an exception no `except` clause names

  /** `article.get(key, "").strip()`, or `None` when it raises. */
  function TextField(f: Field<string>): (r: Option<string>)
    ensures r.Some? ==> IsTrimmed(r.value)
    ensures r.None? <==> f.Mistyped?
  {
    match f
    case Missing => Some([])
    case Has(s) => Some(Strip(s))
    case Mistyped => None
  }

  /** `article.get("datetime", 0)`, or `None` when comparing it with 0 raises. */
  function EpochField(f: Field<int>): (r: Option<int>)
    ensures r.None? <==> f.Mistyped?
    ensures f.Has? ==> r == Some(f.value)
    ensures f.Missing? ==> r == Some(0)
  {
    match f
    case Missing => Some(0)
    case Has(e) => Some(e)
    case Mistyped => None
  }

  /** The largest epoch `datetime.fromtimestamp` turns into a datetime
      (9999-12-31T23:59:59Z). */
  const MaxDatetimeEpoch := 253402300799
  /** The largest value of a 64-bit `time_t`. */
  const MaxTimeT := 0x7FFF_FFFF_FFFF_FFFF

  /** How `datetime.fromtimestamp(e, tz=UTC)` ends for a positive integer
      epoch on a platform with a 64-bit `time_t`: a datetime, a `ValueError`
      or `OSError` (year out of range), or an `OverflowError`. */
  datatype EpochConversion = Converted | RangeError | Overflow

  function ConvertEpoch(e: int): (c: EpochConversion)
    ensures c.Converted? <==> e <= MaxDatetimeEpoch
    ensures c.Overflow? <==> e > MaxTimeT
  {
    if e <= MaxDatetimeEpoch then Converted
    else if e <= MaxTimeT then RangeError
    else Overflow
  }

  /** The opening checks both providers' `_parse_article` run: headline, url,
      epoch, conversion and the buffer cutoff. `HeadEscapes` is an
      `OverflowError`, which neither parser nor its caller catches. */
  datatype Head = HeadOk(headline: string, url: string, published: int) | HeadSkipped | HeadEscapes

  function ArticleHead(a: Article, cutoff: Option<int>): (h: Head)
    ensures h.HeadOk? ==>
      && h.headline != [] && IsTrimmed(h.headline)
      && h.url != [] && IsTrimmed(h.url)
      && 0 < h.published <= MaxDatetimeEpoch
      && (cutoff.Some? ==> h.published > cutoff.value)
    ensures h.HeadEscapes? <==>
      && a.Article?
      && TextField(a.headline).Some? && TextField(a.headline).value != []
      && TextField(a.url).Some? && TextField(a.url).value != []
      && a.datetime.Has? && a.datetime.value > MaxTimeT
  {
    if a.NotAMapping? then HeadSkipped
    else
      var headline, url, epoch := TextField(a.headline), TextField(a.url), EpochField(a.datetime);
      if headline.None? || url.None? || epoch.None? then HeadSkipped
      else if headline.value == [] || url.value == [] || epoch.value <= 0 then HeadSkipped
      else
        match ConvertEpoch(epoch.value)
        case Converted =>
          if cutoff.Some? && epoch.value <= cutoff.value then HeadSkipped
          else HeadOk(headline.value, url.value, epoch.value)
        case RangeError => HeadSkipped
        case Overflow => HeadEscapes
  }

  /** An article the parsers accept up to the buffer filter. */
  predicate WellFormed(a: Article) {
    && a.Article? && a.headline.Has? && a.url.Has? && a.datetime.Has?
    && !AllSpace(a.headline.value) && !AllSpace(a.url.value)
    && 0 < a.datetime.value <= MaxDatetimeEpoch
    && !a.source.Mistyped? && !a.summary.Mistyped?
  }

  /** A well-formed article passes the head checks exactly when it was
      published after the cutoff, and then gives its stripped fields. */
  lemma WellFormedHead(a: Article, cutoff: Option<int>)
    requires WellFormed(a)
    ensures ArticleHead(a, cutoff) ==
      if cutoff.None? || a.datetime.value > cutoff.value then HeadOk(Strip(a.headline.value), Strip(a.url.value), a.datetime.value)
      else HeadSkipped
  {
    assert ConvertEpoch(a.datetime.value) == Converted;
  }

  const DefaultSource := "Finnhub"

  /** `article.get("source", "").strip() or "Finnhub"`. */
  function SourceOrDefault(source: string): (r: string)
    ensures r != []
    ensures source == [] ==> r == DefaultSource
    ensures source != [] ==> r == source
    ensures IsTrimmed(source) ==> IsTrimmed(r)
  {
    if source == [] then DefaultSource else source
  }

  /** `summary if summary else None`. */
  function ContentOf(summary: string): (r: Option<string>)
    ensures r.Some? ==> r.value == summary && summary != []
    ensures r.None? <==> summary == []
    ensures IsTrimmed(summary) ==> (r.Some? ==> IsTrimmed(r.value))
  {
    if summary == [] then None else Some(summary)
  }

  /** What parsing one article gives its caller: the entries it adds (an
      exception the caller catches adds none), or an exception that escapes. */
  datatype ArticleOutcome = Parsed(entries: seq<NewsEntry>) | Escapes

  /** The entries a loop over articles accumulates, or `None` once an
      exception escapes. */
  function Collect(outs: seq<ArticleOutcome>): (r: Option<seq<NewsEntry>>)
    ensures r.None? <==> exists i :: 0 <= i < |outs| && outs[i].Escapes?
    decreases |outs|
  {
    if outs == [] then Some([])
    else
      var init := outs[..|outs| - 1];
      assert forall i :: 0 <= i < |init| ==> init[i] == outs[i];
      match Collect(init)
      case None => None
      case Some(es) =>
        match outs[|outs| - 1]
        case Escapes => None
        case Parsed(more) => Some(es + more)
  }

  /** One more article adds its entries at the end, or stops the loop. */
  lemma CollectSnoc(outs: seq<ArticleOutcome>, o: ArticleOutcome)
    ensures Collect(outs + [o]) ==
      if Collect(outs).Some? && o.Parsed? then Some(Collect(outs).value + o.entries) else None
  {
    assert (outs + [o])[..|outs|] == outs;
  }

  /** One article alone adds exactly its own entries. */
  lemma CollectSingle(o: ArticleOutcome)
    ensures Collect([o]) == if o.Escapes? then None else Some(o.entries)
  {
    var outs := [o];
    assert outs[..0] == [];
    var none: seq<NewsEntry> := [];
    assert Collect(outs[..0]) == Some(none);
    if o.Parsed? {
      assert none + o.entries == o.entries;
    }
  }

  /** Collecting is compositional: the entries of a concatenation are the
      entries of the parts, in order. */
  lemma {:induction false} CollectAppend(a: seq<ArticleOutcome>, b: seq<ArticleOutcome>)
    ensures Collect(a + b) ==
      if Collect(a).Some? && Collect(b).Some? then Some(Collect(a).value + Collect(b).value) else None
    decreases |b|
  {
    if b == [] {
      assert a + b == a;
      var none: seq<NewsEntry> := [];
      assert Collect(b) == Some(none);
      if Collect(a).Some? {
        assert Collect(a).value + none == Collect(a).value;
      }
    } else {
      var b', last := b[..|b| - 1], b[|b| - 1];
      CollectAppend(a, b');
      assert (a + b)[..|a + b| - 1] == a + b';
      assert (a + b)[|a + b| - 1] == last;
      if Collect(a).Some? && Collect(b').Some? && last.Parsed? {
        var x, y := Collect(a).value, Collect(b').value;
        assert Collect(a + b) == Some((x + y) + last.entries);
        assert Collect(b) == Some(y + last.entries);
        assert (x + y) + last.entries == x + (y + last.entries);
      }
    }
  }

  /** An article that adds no entries can be removed without changing what
      the others add. */
  lemma SilentOutcomeIsInvisible(pre: seq<ArticleOutcome>, post: seq<ArticleOutcome>)
    ensures Collect(pre + [Parsed([])] + post) == Collect(pre + post)
  {
    var none: seq<NewsEntry> := [];
    CollectSingle(Parsed(none));
    CollectAppend(pre, [Parsed(none)]);
    CollectAppend(pre + [Parsed(none)], post);
    CollectAppend(pre, post);
    if Collect(pre).Some? {
      assert Collect(pre).value + none == Collect(pre).value;
    }
  }
}
