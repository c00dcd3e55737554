# TradingBot news ingest and batch hand-off, modelled in Dafny

This project models the sequential core of the TradingBot data layer and proves properties of it:

- `parse_symbols` (utils/symbols.py) turns a comma-separated string into an order-preserving, duplicate-free list of trimmed upper-case symbols. It can check symbol shape and filter to a watchlist. Module `Symbols`, over the string operations in `Text`.
- The data-source base contract (data/base.py) covers the `source_name` guards and `DataSourceError`. Module `DataSource`.
- The Finnhub company-news provider (data/providers/finnhub/finnhub_news.py) works on the timestamp cursor:
  - a date-only request window;
  - a strict two-minute buffer filter;
  - per-article and per-symbol isolation;
  - a structural error that aborts the fetch.

  Module `FinnhubNews`. The records, responses and article checks shared by both providers are in `NewsModel`.
- The Finnhub macro-news provider (data/providers/finnhub/finnhub_macro_news.py) works on the article-id cursor:
  - the `min_id` filter;
  - the `last_fetched_max_id` field;
  - a two-day first-run lookback;
  - mapping of `related` symbols to the watchlist, with the `MARKET` fallback.

  Module `FinnhubMacroNews`.
- The batch read-and-prune (data/storage/storage_batch.py) covers `get_news_before`, `get_prices_before` and `commit_llm_batch`:
  - the three tables are sequences of rows in a `Store` class;
  - the getters are filter-and-sort functions over a snapshot of the tables;
  - the prune deletes in place inside an all-or-nothing transaction.

  Module `StorageBatch`, over the generic filter and sort in `Queries`.

Each provider is a class with the source's fields: `sourceName`, `symbols`, and on the macro provider the mutable `lastFetchedMaxId`. Each `FetchIncremental` method runs the source's loops. It is proved equal to a specification function: `Run` for company news, `MacroFetch` for macro news. The lemmas about those functions state what the source promises.

The outside world enters as parameters:
- The HTTP client is a function `Request -> Response`. A response is a list of articles, a non-list value, or a failure kind.
- The clock reading is `now`, in epoch seconds.
- The `NewsItem`/`NewsEntry` constructor validation (data/models is not part of this model) is the `RecordChecks` predicate pair.
- A failing SQL statement is the `fault` argument of `CommitLlmBatch`.

Times are integer epoch seconds. A UTC date is `t / 86400`, a day number.

The model follows the code as written, including four places where it reaches less far than its own tests and handlers suggest:
- `datetime.fromtimestamp` raises `OverflowError` for an epoch above the 64-bit `time_t` range. Both `_parse_article`s catch only `ValueError` and `OSError` around it (data/providers/finnhub/finnhub_news.py:99-106, data/providers/finnhub/finnhub_macro_news.py:112-118). The article loops catch `ValueError`, `TypeError`, `KeyError` and `AttributeError` (finnhub_news.py:75, finnhub_macro_news.py:85). So one such article makes the whole fetch raise, in both providers. test_skips_invalid_epoch (tests/unit/data/providers/test_finnhub_news.py:184-205) expects bad epochs to be skipped, but it exercises only zero and negative epochs.
- In the macro provider, a response element that is not a mapping makes the whole fetch raise. With `min_id`, the id filter calls `article.get` outside any `try` (finnhub_macro_news.py:69-73). Without it, the loop's own `except` handler calls `article.get` again (finnhub_macro_news.py:87).
- The macro provider has no `try` around `client.get` (finnhub_macro_news.py:63), so every client failure, retryable or not, propagates.
- The company provider skips a symbol only for `RetryableError`, `ValueError`, `TypeError`, `KeyError` and `AttributeError` (finnhub_news.py:80-82). Any other exception from the client aborts the whole fetch. test_per_symbol_isolation (tests/unit/data/providers/test_finnhub_news.py:208-236) raises a bare `Exception` for one symbol and expects the other symbols to be fetched; the code as written lets that exception escape.

## Model

| member | source | states |
|---|---|---|
| Text.Strip | utils/symbols.py:39 | `s.strip()` leaves no leading or trailing white space, and is empty exactly when `s` is all white space |
| Text.Split | utils/symbols.py:39 | `raw.split(",")` yields separator-free pieces that join back to `raw` |
| Text.UpperProperties | utils/symbols.py:39 | upper-casing gives upper-case text, keeps trimmed text trimmed, and fixes upper-case text |
| Text.Upper | utils/symbols.py:39 | `.upper()` keeps the length and maps each character on its own, lower-case ASCII letters to upper case |
| Text.Normalize | utils/symbols.py:39 | `s.strip().upper()` is trimmed and upper-case, and empty exactly when `s` is blank |
| Text.NormalizeIdempotent | data/providers/finnhub/finnhub_macro_news.py:38 | normalising an already normalised symbol changes nothing |
| Text.LexLeTotal | data/storage/storage_batch.py:40 | the TEXT collation orders every pair of strings |
| Text.LexLeTransitive | data/storage/storage_batch.py:40 | the TEXT collation is transitive |
| Text.LexLeAntisymmetric | data/storage/storage_batch.py:40 | two strings ordered both ways are equal |
| Symbols.NormalizeList | data/providers/finnhub/finnhub_news.py:29 | every kept watchlist entry is non-empty, trimmed and upper-case |
| Symbols.NormalizeListMembers | utils/symbols.py:39 | a token is present exactly when it is the normal form of some non-blank piece |
| Symbols.Tokens | utils/symbols.py:39 | every token of `raw.split(",")` kept is non-empty, trimmed and upper-case |
| Symbols.AllowSet | utils/symbols.py:35-37 | the allow set exists exactly when `filter_to` is given, and holds only non-empty trimmed upper-case symbols |
| Symbols.Accepted | utils/symbols.py:41-59 | the loop keeps at most as many symbols as there are tokens |
| Symbols.AcceptedSound | utils/symbols.py:44-59 | every output symbol is a token that is well-formed (when validating) and allowed |
| Symbols.AcceptedComplete | utils/symbols.py:44-59 | every wanted token appears in the output |
| Symbols.AcceptedNoDuplicates | utils/symbols.py:41-59 | the output has no duplicates |
| Symbols.AcceptedOrdered | utils/symbols.py:44-59 | the output is a subsequence of the token list |
| Symbols.AcceptedFirstOccurrence | utils/symbols.py:22-26 | the output is in order of first occurrence: each output symbol occurs in the tokens before every occurrence of any later output symbol; with soundness, completeness and no duplicates this fixes the output |
| Symbols.ParseSymbolsSpec | utils/symbols.py:31-61 | `parse_symbols` returns `[]` for `None`, a non-string or a blank string, and otherwise at most one symbol per token |
| Symbols.ParseSymbolsProperties | utils/symbols.py:31-59 | all the promises of `parse_symbols` together: the blank/None/non-string guard returns `[]`; output normalised; no duplicates; a subsequence of the tokens in order of first occurrence; shape when validating; inside the watchlist when filtering; complete |
| Symbols.ParseSymbols | utils/symbols.py:14-61 | the loop with its `seen` set returns exactly the specified list, with every property above |
| Symbols.AcceptedProperties | utils/symbols.py:41-59 | for normalised tokens the output is normalised and wanted, has no duplicates, is a subsequence of the tokens in order of first occurrence, and holds every wanted token |
| Symbols.AcceptTokens | utils/symbols.py:41-59 | the token loop with its `seen` set returns exactly the specified accepted list |
| DataSource.CheckSourceName | data/base.py:28-37 | None, then non-string, then blank, then raw length over 100 are rejected in that order; otherwise the stripped name is stored, non-empty and at most 100 long |
| DataSource.LengthCountsPadding | data/base.py:34-35 | a 100-character name is accepted, but one space of padding makes it too long |
| DataSource.BlankBeatsLength | data/base.py:32-35 | a white-space-only name of any length is reported as blank |
| NewsModel.DayMonotone | data/providers/finnhub/finnhub_news.py:47 | a later instant never falls on an earlier UTC date |
| NewsModel.DayBounds | data/providers/finnhub/finnhub_news.py:47 | an instant lies within its own UTC day |
| NewsModel.TextField | data/providers/finnhub/finnhub_news.py:92-93 | `article.get(key, "").strip()` is trimmed, and raises exactly for a non-string value |
| NewsModel.EpochField | data/providers/finnhub/finnhub_news.py:94-96 | `article.get("datetime", 0)` is 0 when absent, the epoch when present, and raises exactly for a value of the wrong type |
| NewsModel.ConvertEpoch | data/providers/finnhub/finnhub_news.py:99-106 | an epoch converts exactly up to 9999-12-31T23:59:59Z, and overflows exactly beyond 2^63-1 |
| NewsModel.ArticleHead | data/providers/finnhub/finnhub_news.py:92-113 | an accepted head has a non-blank trimmed headline and url and a positive convertible epoch after the cutoff; the head escapes exactly on an overflowing epoch of an otherwise valid article |
| NewsModel.WellFormedHead | data/providers/finnhub/finnhub_news.py:92-117 | an article with non-blank headline and url and a convertible positive epoch passes the head checks exactly when published after the cutoff, with its stripped fields |
| NewsModel.SourceOrDefault | data/providers/finnhub/finnhub_news.py:115 | a blank source becomes "Finnhub" and any other source is kept; the result is non-empty and trimmed when the source is |
| NewsModel.ContentOf | data/providers/finnhub/finnhub_news.py:116-117 | the content is the stripped summary, or None exactly when that is blank |
| NewsModel.Collect | data/providers/finnhub/finnhub_news.py:70-77 | an article loop fails exactly when some article's exception escapes |
| NewsModel.CollectSnoc | data/providers/finnhub/finnhub_news.py:70-77 | one more article appends its entries or stops the loop |
| NewsModel.CollectSingle | data/providers/finnhub/finnhub_news.py:70-77 | one article alone contributes exactly its own entries |
| NewsModel.CollectAppend | data/providers/finnhub/finnhub_news.py:70-77 | the entries of two runs of articles are concatenated in order |
| NewsModel.SilentOutcomeIsInvisible | data/providers/finnhub/finnhub_news.py:70-77 | an article that yields nothing can be removed without changing the others' entries |
| FinnhubNews.RequestWindow | data/providers/finnhub/finnhub_news.py:45-52 | `to` is today's date; with `since` the cutoff is `since - 120` and `from` is its date; without `since` there is no cutoff |
| FinnhubNews.WindowCovers | data/providers/finnhub/finnhub_news.py:45-52 | every instant the exact filter keeps falls on a requested day |
| FinnhubNews.WindowStart | data/providers/finnhub/finnhub_news.py:45-52 | a first run asks from two days before today; with `since` from its date or the day before |
| FinnhubNews.WindowExample | tests/unit/data/providers/test_finnhub_news.py:19-93 | `since` 2024-01-13T05:00Z at now 2024-01-15T10:00Z asks for 2024-01-13 to 2024-01-15; so does a first run |
| FinnhubNews.ParseArticle | data/providers/finnhub/finnhub_news.py:86-131 | at most one entry, with the requested symbol, important, company-specific, defaults applied, published after the cutoff; it escapes exactly on an overflowing epoch |
| FinnhubNews.BlankArticleYieldsNothing | data/providers/finnhub/finnhub_news.py:96-97 | a blank headline, blank url or non-positive epoch yields nothing |
| FinnhubNews.BufferFilterStrict | data/providers/finnhub/finnhub_news.py:108-117 | a well-formed article is kept exactly when published after the cutoff, with the source and content defaults |
| FinnhubNews.SymbolStep | data/providers/finnhub/finnhub_news.py:56-82 | a non-list response is a structural error; a retryable or malformed-response client failure yields exactly no entries and does not fail the fetch, while an uncaught kind does; every entry has the company shape |
| FinnhubNews.FetchSymbol | data/providers/finnhub/finnhub_news.py:56-82 | one turn makes the window's company-news request and yields exactly that symbol's specified outcome |
| FinnhubNews.CollectShape | data/providers/finnhub/finnhub_news.py:70-77 | every entry a symbol's article loop collects has the company shape |
| FinnhubNews.ParseEach | data/providers/finnhub/finnhub_news.py:70-77 | one outcome per article of the response |
| FinnhubNews.ParseEachAt | data/providers/finnhub/finnhub_news.py:70-77 | the k-th outcome is the parse of the k-th article |
| FinnhubNews.Step | data/providers/finnhub/finnhub_news.py:55-82 | one symbol turn keeps the fetch successful exactly when it was and the symbol's outcome is, and adds at most one request |
| FinnhubNews.RunWith | data/providers/finnhub/finnhub_news.py:55-82 | the loop makes at most one request per symbol, and exactly one per symbol when it succeeds |
| FinnhubNews.Run | data/providers/finnhub/finnhub_news.py:55-84 | the company-news loop makes at most one request per watched symbol, and one for each when it succeeds |
| FinnhubNews.RunAppend | data/providers/finnhub/finnhub_news.py:55-82 | the requests and entries of a watchlist are those of its parts, in order, and a failure stops the rest |
| FinnhubNews.SkippedSymbolIsInvisible | data/providers/finnhub/finnhub_news.py:78-82 | a symbol that contributes nothing leaves the other entries unchanged, and later symbols are still requested |
| FinnhubNews.CaughtFailureIsInvisible | data/providers/finnhub/finnhub_news.py:80-82 | a retryable or malformed-response failure of one symbol's request leaves the other symbols' entries unchanged, and later symbols are still requested |
| FinnhubNews.StructuralErrorAborts | data/providers/finnhub/finnhub_news.py:65-79 | a non-list response aborts the fetch with `DataSourceError`, and no later symbol is requested |
| FinnhubNews.RunSuccess | data/providers/finnhub/finnhub_news.py:55-84 | a successful fetch requested every symbol in watchlist order, and every entry belongs to a watched symbol with the company shape |
| FinnhubNews.RunWithNext | data/providers/finnhub/finnhub_news.py:55-82 | after a successful prefix, a failing symbol decides the whole fetch, and a succeeding one appends its request and entries |
| FinnhubNews.BufferExample | tests/unit/data/providers/test_finnhub_news.py:96-125 | with `since` 1000, articles at 500, 880, 950, 1000, 1100 give exactly those at 950, 1000, 1100, in order |
| FinnhubNews.ParseArticles | data/providers/finnhub/finnhub_news.py:70-77 | the inner loop collects the specified entries of one symbol's articles, or stops on an escaping exception |
| FinnhubNews.FinnhubNewsProvider.constructor | data/providers/finnhub/finnhub_news.py:25-29 | stores the name and the normalised watchlist |
| FinnhubNews.FinnhubNewsProvider.Create | data/providers/finnhub/finnhub_news.py:25-29 | a rejected name raises the base-class error; otherwise the provider has the stripped name and the normalised watchlist |
| FinnhubNews.FinnhubNewsProvider.FetchIncremental | data/providers/finnhub/finnhub_news.py:35-84 | the requests and result equal the specified run over the watchlist; an empty watchlist makes no request and returns `[]` |
| FinnhubMacroNews.MarketIsNotASymbol | data/providers/finnhub/finnhub_macro_news.py:155-169 | the `MARKET` sentinel can never pass shape validation |
| FinnhubMacroNews.AllowSetOfNormalized | data/providers/finnhub/finnhub_macro_news.py:159-163 | for the provider's normalised watchlist, the `filter_to` set is the watchlist itself |
| FinnhubMacroNews.WantedIffWatched | data/providers/finnhub/finnhub_macro_news.py:159-163 | a related token is kept exactly when it is a well-formed watched symbol |
| FinnhubMacroNews.ExtractSymbols | data/providers/finnhub/finnhub_macro_news.py:155-169 | at least one symbol, and `["MARKET"]` for a blank `related` |
| FinnhubMacroNews.ExtractSymbolsMatched | data/providers/finnhub/finnhub_macro_news.py:159-169 | when something matches: each watched well-formed symbol `related` names, once, in order of first mention in `related`, and nothing else |
| FinnhubMacroNews.ExtractSymbolsFallback | data/providers/finnhub/finnhub_macro_news.py:155-169 | the result is `["MARKET"]` exactly when `related` is blank or names no watched well-formed symbol |
| FinnhubMacroNews.EntriesFor | data/providers/finnhub/finnhub_macro_news.py:146-151 | every entry pairs the article with one of the symbols, importance None, and passes the entry check; every symbol the check accepts has its entry |
| FinnhubMacroNews.EntriesForAccepted | data/providers/finnhub/finnhub_macro_news.py:146-151 | the entries are exactly one per accepted symbol, in symbol order: the k-th entry is the article filed under the k-th symbol the check accepts |
| FinnhubMacroNews.BuildEntries | data/providers/finnhub/finnhub_macro_news.py:146-151 | the symbol loop builds exactly the specified entries |
| FinnhubMacroNews.EntriesForOne | data/providers/finnhub/finnhub_macro_news.py:146-151 | one accepted symbol gives exactly one entry, with importance None |
| FinnhubMacroNews.PrepareItem | data/providers/finnhub/finnhub_macro_news.py:105-145 | an accepted article record is macro, trimmed, defaulted and after the cutoff; it escapes exactly on an overflowing epoch |
| FinnhubMacroNews.PrepareItemFields | data/providers/finnhub/finnhub_macro_news.py:105-145 | a well-formed article with a readable `related`, under accepting record checks, becomes a record exactly when published after the cutoff; the record holds the stripped headline and url, the epoch, the stripped source or "Finnhub", and the stripped summary or None |
| FinnhubMacroNews.MacroArticle | data/providers/finnhub/finnhub_macro_news.py:100-153 | `_parse_article` escapes exactly on an overflowing epoch |
| FinnhubMacroNews.MacroArticleShape | data/providers/finnhub/finnhub_macro_news.py:127-151 | every entry is MARKET or a well-formed watched symbol, importance None, with the macro record shape |
| FinnhubMacroNews.FallbackToMarket | data/providers/finnhub/finnhub_macro_news.py:127-151 | an article with blank or unmatched `related` yields exactly one `MARKET` entry |
| FinnhubMacroNews.BlankArticleYieldsNothing | data/providers/finnhub/finnhub_macro_news.py:109-110 | a blank headline, blank url or non-positive epoch yields nothing |
| FinnhubMacroNews.KeepNewer | data/providers/finnhub/finnhub_macro_news.py:69-73 | the `min_id` filter keeps exactly the articles with an integer id above `min_id`, and no more articles than it was given |
| FinnhubMacroNews.KeepNewerAppend | data/providers/finnhub/finnhub_macro_news.py:68-79 | the filter works article by article, keeping response order |
| FinnhubMacroNews.IdFilter | data/providers/finnhub/finnhub_macro_news.py:68-73 | the filter raises exactly when some element is not a mapping |
| FinnhubMacroNews.Considered | data/providers/finnhub/finnhub_macro_news.py:68-79 | without `min_id` every article is considered; with it the filter raises exactly on a non-mapping element and otherwise keeps exactly the newer articles |
| FinnhubMacroNews.MaxPositiveId | data/providers/finnhub/finnhub_macro_news.py:91-96 | None exactly when no positive integer id exists; otherwise the largest such id, attained by an article |
| FinnhubMacroNews.MacroCutoff | data/providers/finnhub/finnhub_macro_news.py:52-55 | there is a buffer cutoff exactly on a first run |
| FinnhubMacroNews.LoopOutcome | data/providers/finnhub/finnhub_macro_news.py:81-89 | one loop turn escapes exactly for a non-mapping element or an overflowing epoch, and otherwise is `_parse_article` |
| FinnhubMacroNews.MacroEach | data/providers/finnhub/finnhub_macro_news.py:81-89 | one outcome per considered article |
| FinnhubMacroNews.MacroEachAt | data/providers/finnhub/finnhub_macro_news.py:81-89 | the k-th loop outcome is the outcome of the k-th considered article |
| FinnhubMacroNews.MacroEachAppend | data/providers/finnhub/finnhub_macro_news.py:81-89 | the loop outcomes of two runs of articles are concatenated |
| FinnhubMacroNews.MacroFetch | data/providers/finnhub/finnhub_macro_news.py:45-98 | a client failure propagates and a non-list response is a `DataSourceError` |
| FinnhubMacroNews.CursorAdvances | data/providers/finnhub/finnhub_macro_news.py:68-96 | with `min_id`, a new maximum id is above `min_id` |
| FinnhubMacroNews.MaxIdCoversConsidered | data/providers/finnhub/finnhub_macro_news.py:91-96 | the maximum id bounds every considered positive id, including articles that yielded nothing, and is one of them |
| FinnhubMacroNews.OldArticleIgnored | data/providers/finnhub/finnhub_macro_news.py:68-79 | with `min_id`, an article without a newer integer id does not change the fetch |
| FinnhubMacroNews.ConsideredIgnoresOld | data/providers/finnhub/finnhub_macro_news.py:68-79 | with `min_id`, an article without a newer integer id drops out of the articles the loop considers |
| FinnhubMacroNews.FirstRunLookback | data/providers/finnhub/finnhub_macro_news.py:52-55 | on a first run every entry was published after `now - 2 days`; with `min_id` the result does not depend on the clock |
| FinnhubMacroNews.CollectMacroShape | data/providers/finnhub/finnhub_macro_news.py:81-89 | every entry the parse loop collects has the macro shape |
| FinnhubMacroNews.MacroFetchShape | data/providers/finnhub/finnhub_macro_news.py:81-98 | every entry of a successful fetch has the macro shape |
| FinnhubMacroNews.SilentArticleIsInvisible | data/providers/finnhub/finnhub_macro_news.py:81-89 | an article that yields nothing does not change the others' entries |
| FinnhubMacroNews.FinnhubMacroNewsProvider.constructor | data/providers/finnhub/finnhub_macro_news.py:34-40 | stores the name and the normalised watchlist, with no cursor yet |
| FinnhubMacroNews.FinnhubMacroNewsProvider.Create | data/providers/finnhub/finnhub_macro_news.py:34-40 | a rejected name raises the base-class error; otherwise the provider has the stripped name, normalised watchlist and no cursor |
| FinnhubMacroNews.FinnhubMacroNewsProvider.ParseArticle | data/providers/finnhub/finnhub_macro_news.py:100-153 | the symbol loop builds exactly the specified outcome |
| FinnhubMacroNews.FinnhubMacroNewsProvider.LoopStep | data/providers/finnhub/finnhub_macro_news.py:81-89 | one loop turn gives the specified outcome, escaping for a non-mapping |
| FinnhubMacroNews.FinnhubMacroNewsProvider.ParseAll | data/providers/finnhub/finnhub_macro_news.py:81-89 | the loop collects the specified entries, or stops on an escaping exception |
| FinnhubMacroNews.FinnhubMacroNewsProvider.FetchIncremental | data/providers/finnhub/finnhub_macro_news.py:45-98 | the result is the specified fetch; `last_fetched_max_id` is updated to its maximum id on success and left unchanged on failure |
| Queries.Filter | data/storage/storage_batch.py:64 | a `WHERE` keeps exactly the rows satisfying it |
| Queries.FilterSplit | data/storage/storage_batch.py:107-111 | a `DELETE ... WHERE` and its complement split the table: every row is deleted or kept, never both |
| Queries.FilterAll | data/storage/storage_batch.py:64 | a `WHERE` every row satisfies keeps the whole table in order |
| Queries.FilterUniqueKeys | data/storage/storage_batch.py:94-111 | a primary key unique in a table stays unique after a delete |
| Queries.FilterDisjointUnion | data/storage/storage_batch.py:94-105 | two disjoint `WHERE` conditions select, together, as many rows as their disjunction |
| Queries.Partition | data/storage/storage_batch.py:107-108 | the delete loop keeps exactly the filtered rows and counts the others as `rowcount` |
| Queries.SortBy | data/storage/storage_batch.py:65 | `ORDER BY` is a permutation of its input |
| Queries.SortBySorted | data/storage/storage_batch.py:65 | `ORDER BY` output is in key order when the key is a total preorder |
| Queries.SortByMembers | data/storage/storage_batch.py:65 | `ORDER BY` neither adds nor loses rows |
| StorageBatch.LinksOf | data/storage/storage_batch.py:37-38 | the join rows of one article are exactly its links |
| StorageBatch.Join | data/storage/storage_batch.py:37-38 | the inner join pairs exactly the articles and links with equal urls |
| StorageBatch.EntryOf | data/storage/storage_batch.py:45 | an entry carries its article row's url and publication time and its link's symbol and importance |
| StorageBatch.ToPriceData | data/storage/storage_batch.py:70 | a price record carries its row's symbol, timestamp and price |
| StorageBatch.NewsRowsUpTo | data/storage/storage_batch.py:26-43 | the rows read are the joined rows at or before the cutoff, reordered |
| StorageBatch.PriceRowsUpTo | data/storage/storage_batch.py:60-68 | the rows read are the price rows at or before the cutoff, reordered |
| StorageBatch.NewsOrderIsSortKey | data/storage/storage_batch.py:40 | (created_at, url, symbol) is a total preorder |
| StorageBatch.PriceOrderIsSortKey | data/storage/storage_batch.py:65 | (created_at, symbol) is a total preorder |
| StorageBatch.GetNewsBefore | data/storage/storage_batch.py:14-45 | one entry per joined (article, link) row at or before the cutoff |
| StorageBatch.GetPricesBefore | data/storage/storage_batch.py:48-70 | one record per price row at or before the cutoff |
| StorageBatch.NewsRowsUpToMembers | data/storage/storage_batch.py:26-39 | the joined rows read are exactly the (article, link) pairs with matching url at or before the cutoff |
| StorageBatch.PriceRowsUpToMembers | data/storage/storage_batch.py:62-64 | the price rows read are exactly those created at or before the cutoff |
| StorageBatch.GetNewsBeforeMembers | data/storage/storage_batch.py:24-45 | exactly one entry per (article, link) pair whose article was created at or before the cutoff |
| StorageBatch.GetNewsBeforeOrdered | data/storage/storage_batch.py:40 | the entries come in (created_at, url, symbol) order |
| StorageBatch.UnlinkedArticleIsNotRead | data/storage/storage_batch.py:38 | an article without links does not appear |
| StorageBatch.GetPricesBeforeMembers | data/storage/storage_batch.py:58-70 | exactly the price rows created at or before the cutoff |
| StorageBatch.GetPricesBeforeOrdered | data/storage/storage_batch.py:65 | the prices come in (created_at, symbol) order |
| StorageBatch.DoomedUrls | data/storage/storage_batch.py:97-101 | the subquery selects exactly the urls of articles created at or before the cutoff |
| StorageBatch.Pruned | data/storage/storage_batch.py:94-111 | after the batch exactly the articles and prices after the cutoff remain, and exactly the links whose url was not pruned |
| StorageBatch.PruneCounts | data/storage/storage_batch.py:105-111 | no count exceeds the size of its table |
| StorageBatch.PruneCountsRemoved | data/storage/storage_batch.py:105-117 | each returned count is the number of rows that disappear from its table |
| StorageBatch.PruneClears | data/storage/storage_batch.py:94-111 | no article or price at or before the cutoff remains, and no remaining link points at a pruned article |
| StorageBatch.PruneKeepsTheRest | data/storage/storage_batch.py:94-111 | newer articles and prices stay; a link stays exactly when its article is not pruned, whatever its own created_at |
| StorageBatch.PruneKeepsValid | data/storage/storage_batch.py:94-111 | the primary keys stay unique |
| StorageBatch.PruneLeavesNoOrphans | data/storage/storage_batch.py:92-105 | if every link had its article before, every remaining link has one after |
| StorageBatch.PruneIdempotent | data/storage/storage_batch.py:94-117 | a second prune with the same cutoff changes nothing and returns all zeros |
| StorageBatch.JoinCount | data/storage/storage_batch.py:37-38 | with unique urls the join has one row per link to a joined article |
| StorageBatch.PricesReadAreRemoved | data/storage/storage_batch.py:58-111 | `get_prices_before` lists exactly the price rows the prune deletes |
| StorageBatch.NewsReadCountsRemoved | data/storage/storage_batch.py:24-105 | `get_news_before` returns one entry per link the prune deletes |
| StorageBatch.NewsReadAreRemoved | data/storage/storage_batch.py:39-101 | the links `get_news_before` joins are exactly the links the prune deletes |
| StorageBatch.Store.Restore | data/storage/storage_batch.py:90 | a rollback restores all three tables |
| StorageBatch.Store.PruneLinks | data/storage/storage_batch.py:94-105 | deletes exactly the links to pruned articles and returns how many |
| StorageBatch.Store.PruneNews | data/storage/storage_batch.py:107-108 | deletes exactly the articles at or before the cutoff and returns how many |
| StorageBatch.Store.PrunePrices | data/storage/storage_batch.py:110-111 | deletes exactly the prices at or before the cutoff and returns how many |
| StorageBatch.Store.CommitLlmBatch | data/storage/storage_batch.py:73-117 | without a fault the tables become the pruned tables and the counts are returned; with a fault at any statement nothing changes; keys stay unique either way |

## Left out

- Asynchrony, the Finnhub HTTP client, its retries and `validate_connection` are left out. The client is a total function from request to response, so the model assumes the same request always gets the same answer within one fetch.
- Logging is not modelled.
- `datetime.now` is the `now` parameter.
- `since` is taken to be a timezone-aware UTC datetime; the model's `since` is an epoch. A naive `since` would make `published <= buffer_time` (data/providers/finnhub/finnhub_news.py:108) raise `TypeError`. The article handler at line 75 catches that, so every article would be dropped silently. That case is not modelled.
- `RetryableError` (utils/retry is not part of this model) is taken not to be a subclass of `DataSourceError`. If it were, the `except DataSourceError` at data/providers/finnhub/finnhub_news.py:78 would re-raise it instead of skipping the symbol.
- The `NewsItem`/`NewsEntry` constructors live in data/models, which is not part of this model. Their validation is the `RecordChecks` predicate pair, which rejects or accepts a record.
- Epochs that are floats or booleans are not modelled. Neither are ids that are booleans, which Python counts as `int`. An epoch is an integer, a missing key, or a value of the wrong type.
- The default source names ("Finnhub", "Finnhub Macro") are not modelled as defaults. `Create` takes the name explicitly.
- A watchlist element that is not a string is not modelled. The providers call `.strip()` on each element.
- Text.Upper: upper-cases ASCII letters only, where Python's `str.upper` also maps other letters.
- Symbols.ParseSymbols: validation accepts ASCII letters only, where `str.isalpha` also accepts non-ASCII letters.
- NewsModel.ConvertEpoch: assumes a platform with a 64-bit `time_t` and UTC conversion. Platform-specific `OSError` boundaries below the year-9999 limit are not modelled.
- StorageBatch.GetPricesBefore: SQL leaves the order of rows with equal (created_at, symbol) unspecified. The model returns them in table order, because the sort is stable.
- The getters take a snapshot of the tables rather than a database path. Connection handling, `_cursor_context` and SQLite internals are left out. The transaction is all-or-nothing, with the failing statement given as `fault`.
- `ON DELETE CASCADE` and foreign-key enforcement are not modelled. The links are deleted explicitly, as the code does.
- `_row_to_news_entry` and `_row_to_price_data` (storage_utils is not part of this model) copy the columns into the records. ISO encoding and decimal parsing are not modelled.
- `created_at_iso` is compared as the epoch seconds it encodes. The fixed-width second-precision text orders the same way.
- The watermark engine, storage CRUD and upserts, the record models and the ISO/decimal codecs are not part of this model.
