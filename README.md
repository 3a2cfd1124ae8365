# Web-Crawling-Pipeline, modelled in Dafny

This project models the core of a Python crawling pipeline and proves properties of the model.
The pipeline crawls configured websites page by page. Static sites are fetched over HTTP;
dynamic sites are rendered in a headless browser. Each page's text is fingerprinted and
de-duplicated, and its keywords are extracted. The page records are streamed to object
storage as multipart uploads. Logistics news is collected from NewsAPI and from RSS feeds,
de-duplicated by URL. A driver crawls the requested sites and tallies successes and failures.

Modules, one per source file plus two helper modules:

- `Wrappers` (wrappers.dfy): `Option` and `Result`.
- `Seqs` (seqs.dfy): helpers for sequences and Python dictionaries.
  - `Unique` is `list(dict.fromkeys(s))`.
  - `Take` is `s[:n]`.
  - `Assigned` is a dictionary filled key by key, where the last assignment wins.
- `Strings` (strings.dfy): the Python string operations the core relies on.
  - `split()`, `strip()`, `splitlines()`, `split("  ")`, `lower()` and `sep.join`.
  - `str(n)` and `f"{n:02d}"`.
- `TextProcessing` (text_processor.dfy): the content fingerprint, the bounded dedup ledger,
  TF-IDF keywords with the frequency fallback, and `process_text`.
- `BaseCrawling` (base_crawler.dfy): User-Agent rotation, the retrying
  `get_page`, and `get_metadata`.
- `StaticCrawling` (static_crawler.dfy): link, text, metadata and image extraction, `parse`,
  the breadth-first crawl loop, and post-crawl processing.
- `DynamicCrawling` (dynamic_crawler.dfy): the browser-rendering `get_page`, `scroll_page`
  and `handle_cookies_popup`.
- `S3Storing` (s3_storage.dfy): key layout, the raw and text streaming uploads as plans of
  storage calls, `store_processed_data`, `check_file_exists`, `list_files`, and the
  credential check.
- `NewsFetching` (news_api_client.dfy): the NewsAPI request, RSS entries in the common
  article shape, and `fetch_logistics_news` with URL de-duplication.
- `CrawlerFactory` (crawler_factory.dfy): `create_crawler` and `create_all_crawlers`.
- `PipelineDriver` (main.dfy): `crawl_websites` and the stage selection of `main`.

How the model treats the outside world:

- **As parameters.** Everything outside the process is a function parameter (an oracle):
  - the network (`net`, `render`, `get`, `parse`), indexed by attempt or call, and the
    crawl loop's page fetches (`fetch`), indexed by fetch number;
  - the storage service's replies (`respond`), indexed by call number;
  - the HTML parser's view of a page (`Dom`);
  - `urljoin`, MD5, spaCy and TF-IDF;
  - random choices (`picks`) and clocks (timestamps and dates).
- **As traces.** Side effects are recorded as data: a trace of requests, renders and
  sleeps for the crawlers, and a log of storage calls for the storage class.
- **Classes and loops.** The mutable objects are classes with `modifies` clauses: the text
  processor's hash set, the crawler's visited set and metrics, the session's User-Agent,
  and the storage call log. Each loop of the source is a method with a `while` loop, proved
  equal to a recursive specification function, with one exception. The loop of
  `stream_raw_data` that gathers the generator's chunks into one list
  (`src/storage/s3_storage.py:211-212`) has no counterpart: the generator is given to
  `S3Storing.S3Storage.StreamRawData` as the sequence `chunks`, which is already that list.
  The lemmas state their properties about those functions.

Where the source's own comments and its code disagree, the model follows the code:

- **No abort.** The comments at `src/storage/s3_storage.py:278` and `:510` promise to abort the
  multipart upload on error, but the streaming uploads never do. The guard tests for a
  local named `UploadId`, which never exists; the upload id is held in `mpu`. See
  `S3Storing.RawNeverAborts` and `S3Storing.TextNeverAborts`.
- **Ledger size.** The comments at `src/utils/text_processor.py:147-149` describe an LRU-like
  store that removes the oldest digests. The code keeps the last digests of a set in iteration
  order, which is not insertion order, and the ledger can hold `max_hashes + 1` digests. Eviction happens
  before the lookup and keeps `max_hashes` of them, and a new digest is added after it. See
  `TextProcessing.LedgerExceedsMax`. Which digests survive an eviction depends on the set's
  iteration order, so the text just recorded can be evicted at once
  (`TextProcessing.JustRecordedCanBeEvicted`).
- **Backoff.** The comments at `src/crawlers/base_crawler.py:89` and
  `src/crawlers/dynamic/dynamic_crawler.py:77` call the backoff exponential, but it is linear:
  `delay * (attempt + 1)`. The static fetcher sleeps before
  each retry. The rendering fetcher sleeps after each failed attempt except the last one.

A crawl error is recorded against its site, and the driver goes on to the next site. Opening
the object store before the site loop fails when an access key, the secret or the bucket name is
missing, and then no site is crawled. The bucket verification the constructor makes next is left
out (see below).

## Model

| member | source | states |
|---|---|---|
| Seqs.Unique | src/utils/text_processor.py:100 | `list(dict.fromkeys(s))` holds exactly the elements of `s` and is no longer than `s` |
| Seqs.UniqueFirstOccurrenceOrder | src/utils/text_processor.py:100 | no element is kept twice, and kept elements are in the order of their first occurrence |
| Seqs.Take | src/utils/text_processor.py:100 | `s[:n]` is a prefix of `s` of length `min(n, len(s))` |
| Seqs.AssignedKeys | src/crawlers/crawler_factory.py:43-45 | a dictionary filled key by key has exactly the assigned keys |
| Seqs.AssignedLastWins | src/crawlers/crawler_factory.py:43-45 | a key holds the value of its last assignment |
| Strings.Lower | src/utils/text_processor.py:103 | `lower()` turns an upper-case letter into its lower-case partner (32 code points up), changes nothing else, and keeps whitespace as whitespace |
| Strings.LowerStrAt | src/utils/text_processor.py:103 | `text.lower()` lower-cases each character on its own and keeps the length |
| Strings.LowerStrOfLower | src/utils/text_processor.py:130 | lower-casing a string with no upper-case letter leaves it unchanged |
| Strings.TrimLeft | src/crawlers/static/static_crawler.py:131 | the leading whitespace is dropped, exactly up to the first non-space |
| Strings.TrimRight | src/crawlers/static/static_crawler.py:131 | the trailing whitespace is dropped, exactly back to the last non-space |
| Strings.LeadingSpaces | src/crawlers/static/static_crawler.py:131 | the length of the leading whitespace run: every character before it is whitespace, the one at it is not |
| Strings.Strip | src/crawlers/static/static_crawler.py:131 | `strip()` has no surrounding whitespace and is non-empty when the input has a non-space |
| Strings.StripIsSlice | src/crawlers/static/static_crawler.py:131 | `strip()` is one contiguous slice of the input, starting right after its leading whitespace |
| Strings.StripDropsOnlySpace | src/crawlers/static/static_crawler.py:131 | everything `strip()` drops, before and after that slice, is whitespace |
| Strings.StripChars | src/crawlers/static/static_crawler.py:131 | a character absent from the input is absent from `strip()` |
| Strings.WordPrefix | src/utils/text_processor.py:103 | the longest whitespace-free prefix, which ends at whitespace or the end of the text |
| Strings.Words | src/utils/text_processor.py:103 | `split()` yields only non-empty words without whitespace |
| Strings.WordsOfInterleave | src/utils/text_processor.py:103 | `split()` of any text made of words separated by non-empty whitespace runs, with optional whitespace before and after, gives back exactly those words in order |
| Strings.WordsChars | src/utils/text_processor.py:103 | every character of a word comes from the text |
| Strings.WordsOfJoin | src/utils/text_processor.py:130 | splitting `' '.join(words)` gives back the words |
| Strings.SplitOnChar | src/storage/s3_storage.py:149 | `s.split(sep)` always has at least one piece |
| Strings.SplitOnDoubleSpace | src/crawlers/static/static_crawler.py:134 | `line.split("  ")` has at least one piece, and every piece's characters come from the line |
| Strings.SplitOnDoubleSpaceJoin | src/crawlers/static/static_crawler.py:134 | joining the pieces of `line.split("  ")` with `"  "` gives back the line. No piece holds a double space, and no piece before a separator ends with a space, so the separators are the leftmost non-overlapping ones |
| Strings.SplitLines | src/crawlers/static/static_crawler.py:131 | no line of `splitlines()` holds a line-break character |
| Strings.SplitLinesJoin | src/crawlers/static/static_crawler.py:131 | joining the lines of `splitlines()` with `\n` gives back the text, with every break (`\r\n` as one) written `\n` and a final break dropped. There are no lines iff the text is empty |
| Strings.JoinChars | src/crawlers/static/static_crawler.py:137 | a character of a join is the separator or a character of a piece |
| Strings.NatToDecimal | src/storage/s3_storage.py:134 | `str(year)` is a non-empty string of decimal digits |
| Strings.DecimalRoundTrip | src/storage/s3_storage.py:134 | `str(n)` reads back as `n` |
| Strings.Pad2RoundTrip | src/storage/s3_storage.py:134 | `f"{n:02d}"` for n below 100 is exactly two digits and reads back as `n` |
| Strings.SplitJoinRoundTrip | src/storage/s3_storage.py:149 | splitting a '/'-join on '/' gives back the fields when none holds a '/' |
| Strings.IndexOf | src/storage/s3_storage.py:149 | the position of the first occurrence of a character |
| TextProcessing.Chunks | src/utils/text_processor.py:124-128 | `range(0, len(text), 100000)` slices are non-empty and at most 100000 characters |
| TextProcessing.ChunksFrom | src/utils/text_processor.py:127-128 | the chunk starting at `i` is `text[i:i+100000]`, followed by the chunks of the rest |
| TextProcessing.ShortTextHash | src/utils/text_processor.py:123-133 | a text within one chunk is hashed as its normalised form |
| TextProcessing.StreamOfOneChunk | src/utils/text_processor.py:127-131 | a non-empty text of one chunk feeds the hasher its normalised form only |
| TextProcessing.HashIgnoresCaseAndSpacing | src/utils/text_processor.py:129-131 | texts within one chunk with the same lower-cased words have the same fingerprint |
| TextProcessing.ChunkedHash | src/utils/text_processor.py:127-131 | a longer text is hashed as the first chunk's normalised form followed directly by the rest's, with no separator at the boundary |
| TextProcessing.NormalizeIdempotent | src/utils/text_processor.py:130 | normalising a normalised chunk changes nothing |
| TextProcessing.NormalizeWords | src/utils/text_processor.py:130 | a normalised chunk has the lower-cased words of the chunk |
| TextProcessing.First | src/utils/text_processor.py:150 | the member of a set that comes first in its iteration order |
| TextProcessing.FirstExists | src/utils/text_processor.py:150 | every non-empty set has a first member in iteration order |
| TextProcessing.Truncate | src/utils/text_processor.py:150 | `set(list(s)[-k:])` keeps `k` members of `s`, and every dropped one comes before every kept one in iteration order |
| TextProcessing.Evict | src/utils/text_processor.py:148-150 | below `max_hashes` the ledger is kept whole; at or above it, `max_hashes` of its digests are kept |
| TextProcessing.Dedup | src/utils/text_processor.py:145-156 | duplicate iff the digest is in the evicted ledger; only a new digest is added |
| TextProcessing.LedgerExceedsMax | src/utils/text_processor.py:148-156 | a new digest at a full ledger is reported new and the ledger reaches `max_hashes + 1` |
| TextProcessing.SecondCheckIsDuplicate | src/utils/text_processor.py:145-156 | below capacity, a text checked twice is a duplicate the second time |
| TextProcessing.JustRecordedCanBeEvicted | src/utils/text_processor.py:148-156 | at capacity, a digest first in iteration order is evicted at once and the same text is reported new again |
| TextProcessing.ProcessGating | src/utils/text_processor.py:168-185 | `process_text` returns None exactly for a duplicate, and otherwise carries the text's fingerprint |
| TextProcessing.KeywordsNormalPath | src/utils/text_processor.py:73-100 | the TF-IDF path returns at most `top_n` distinct keywords in first-occurrence order |
| TextProcessing.LongWords | src/utils/text_processor.py:105-106 | only words longer than three characters are counted, all of them from the input |
| TextProcessing.FreqCounts | src/utils/text_processor.py:104-107 | `word_freq[w]` is the number of occurrences of `w`, and `w` is a key iff it occurs |
| TextProcessing.Insert | src/utils/text_processor.py:110 | inserting a word adds exactly that word |
| TextProcessing.Rank | src/utils/text_processor.py:110 | the ranking holds exactly the words it ranks |
| TextProcessing.InsertSorted | src/utils/text_processor.py:110 | inserting into a list sorted by descending count keeps it sorted |
| TextProcessing.InsertStable | src/utils/text_processor.py:110 | insertion keeps words with equal counts in their order, the new one last |
| TextProcessing.InsertNoDups | src/utils/text_processor.py:110 | inserting a new word into a duplicate-free ranking keeps it duplicate-free |
| TextProcessing.RankSortedStable | src/utils/text_processor.py:110 | `sorted(..., reverse=True)` by count is in descending count order and stable for ties |
| TextProcessing.RankNoDups | src/utils/text_processor.py:110 | ranking distinct words keeps them distinct, so with `Rank` it is a permutation |
| TextProcessing.FallbackRanking | src/utils/text_processor.py:101-111 | the fallback ranks the distinct lower-cased long words by count, ties in first-occurrence order, each with its count, and keeps the first `top_n` |
| TextProcessing.FallbackNoDups | src/utils/text_processor.py:101-111 | the fallback never repeats a word |
| TextProcessing.TextProcessor.constructor | src/utils/text_processor.py:12-29 | a new processor has an empty hash set |
| TextProcessing.TextProcessor.CalculateContentHash | src/utils/text_processor.py:113-133 | the chunk loop computes the fingerprint `ContentHash` |
| TextProcessing.TextProcessor.IsDuplicate | src/utils/text_processor.py:135-156 | the verdict and the new hash set are those of `Dedup` on the old set |
| TextProcessing.TextProcessor.CountLongWords | src/utils/text_processor.py:103-107 | the counting loop builds `Freq` of the long words and their first-occurrence order |
| TextProcessing.TextProcessor.CountWord | src/utils/text_processor.py:105-107 | one word of the counting loop extends the counts and the order by that word |
| TextProcessing.TextProcessor.FrequencyKeywords | src/utils/text_processor.py:101-111 | the fallback branch returns `FallbackKeywords` |
| TextProcessing.TextProcessor.ScanChunks | src/utils/text_processor.py:78-97 | the chunk loop returns every chunk's keywords in order, or None when a chunk raises |
| TextProcessing.TextProcessor.ExtractKeywords | src/utils/text_processor.py:62-111 | `extract_keywords` is `Keywords`: unique TF-IDF keywords cut to `top_n`, or the fallback |
| TextProcessing.TextProcessor.ProcessText | src/utils/text_processor.py:158-185 | the new hash set and the result are those of `Process` |
| TextProcessing.FreshProcessorDedup | src/utils/text_processor.py:135-156 | a fresh processor reports a text new and then a same-fingerprint text a duplicate |
| BaseCrawling.Rotate | src/crawlers/base_crawler.py:37-40 | an empty pool leaves the header as it was; otherwise the header is a member of the pool |
| BaseCrawling.RespectRobotsTxt | src/crawlers/base_crawler.py:42-54 | the robots.txt stub allows every URL |
| BaseCrawling.FirstServed | src/crawlers/base_crawler.py:82-97 | the first served attempt in a range, every earlier one failed; None when all fail |
| BaseCrawling.AttemptsEnd | src/crawlers/base_crawler.py:82-97 | the attempts made end after the first served one, or after all of them |
| BaseCrawling.StaticWaitsClosedForm | src/crawlers/base_crawler.py:88-89 | the backoff before attempt i is `delay * (i + 1)`, with none before the first |
| BaseCrawling.StaticAttemptsResult | src/crawlers/base_crawler.py:82-101 | the body of the first served attempt after `j - k + 1` requests; None after all `max_retries - k` requests |
| BaseCrawling.StaticAttemptsBackoff | src/crawlers/base_crawler.py:88-89 | a backoff sleep precedes each attempt after the first, up to the last attempt made |
| BaseCrawling.StaticAttemptsPoliteness | src/crawlers/base_crawler.py:94-95 | exactly one politeness sleep of `delay`, and only after a success |
| BaseCrawling.StaticAttemptsKeepAgent | src/crawlers/base_crawler.py:37-40 | with an empty pool every request keeps the session's User-Agent |
| BaseCrawling.StaticAttemptsPoolAgents | src/crawlers/base_crawler.py:84-85 | with a non-empty pool every request carries a User-Agent from the pool |
| BaseCrawling.StaticAttemptsFirstAgent | src/crawlers/base_crawler.py:84-91 | an attempt's request carries the User-Agent rotated just before it |
| BaseCrawling.GetPageOutcome | src/crawlers/base_crawler.py:68-101 | at most `max_retries` requests; None iff every attempt failed; otherwise a served body |
| BaseCrawling.GetPageSuccessSleeps | src/crawlers/base_crawler.py:82-97 | when attempt j is the first served: j + 1 requests, backoffs 2·delay … (j+1)·delay, one politeness delay |
| BaseCrawling.GetMetadata | src/crawlers/base_crawler.py:126-141 | every input key is kept, and `crawler`, `timestamp` and `source_url` override same-named keys |
| BaseCrawling.BaseCrawler.constructor | src/crawlers/base_crawler.py:16-35 | name, URL and dynamic flag default to "", "" and False, and the User-Agent is rotated once |
| BaseCrawling.BaseCrawler.TryOnce | src/crawlers/base_crawler.py:83-99 | one attempt either returns the run's body with the whole trace, or leaves the rest of the run to the later attempts |
| BaseCrawling.BaseCrawler.GetPage | src/crawlers/base_crawler.py:68-101 | the loop returns `GetPageSpec`'s body, appends its events to the trace and leaves its User-Agent |
| StaticCrawling.LinksOf | src/crawlers/static/static_crawler.py:55-67 | every kept link starts with the crawler's base URL |
| StaticCrawling.LinksOfMembers | src/crawlers/static/static_crawler.py:55-67 | a link is kept iff a followable href resolves to it under the base URL |
| StaticCrawling.LinksOfAppend | src/crawlers/static/static_crawler.py:55-67 | links are kept href by href, in document order |
| StaticCrawling.StrippedPhrases | src/crawlers/static/static_crawler.py:134-137 | the kept phrases are non-empty and stripped |
| StaticCrawling.LinePhrases | src/crawlers/static/static_crawler.py:131-137 | the phrases of every line are non-empty and stripped |
| StaticCrawling.LinePhrasesChars | src/crawlers/static/static_crawler.py:131-134 | a character absent from every line is absent from every phrase |
| StaticCrawling.CleanTextLines | src/crawlers/static/static_crawler.py:128-137 | every line of the cleaned text is a non-empty stripped phrase without a line break |
| StaticCrawling.JoinPhrasesRoundTrip | src/crawlers/static/static_crawler.py:137 | `'\n'.join` of non-empty phrases without a line break is empty iff there are none, and splits back into the phrases |
| StaticCrawling.MetaKey | src/crawlers/static/static_crawler.py:166-174 | a tag is stored iff it has a truthy content and a truthy `name` or `property`. It is stored under `name` when that is truthy, otherwise under `property` |
| StaticCrawling.MetaFoldKeys | src/crawlers/static/static_crawler.py:166-174 | the keys are the initial ones and those of the tags with a key; untouched keys keep their value |
| StaticCrawling.MetaFoldLastWins | src/crawlers/static/static_crawler.py:166-174 | the last tag with a key decides its value |
| StaticCrawling.MetadataPrecedence | src/crawlers/static/static_crawler.py:158-177 | a key is present iff the title or a tag supplies it; the last tag wins; the title survives only when no tag is keyed `title` |
| StaticCrawling.ImagesOf | src/crawlers/static/static_crawler.py:91-101 | one image per `<img src>`, in order. The i-th image's URL is its `src` joined to the base URL, and its alt text is `alt`, or "" when absent |
| StaticCrawling.Enqueue | src/crawlers/static/static_crawler.py:300-302 | the queue is extended in order by exactly the links neither visited nor queued, and stays duplicate-free |
| StaticCrawling.StepProgress | src/crawlers/static/static_crawler.py:238-302 | each step visits one more URL or shortens the frontier, and forgets no visited URL |
| StaticCrawling.RunVisitedBound | src/crawlers/static/static_crawler.py:238 | the crawl stops with an empty frontier or at the page limit, and never passes the limit |
| StaticCrawling.RunQueueNoDups | src/crawlers/static/static_crawler.py:300-302 | the frontier never holds a URL twice |
| StaticCrawling.StepSkipsVisited | src/crawlers/static/static_crawler.py:239-242 | a visited URL is dropped without a fetch |
| StaticCrawling.StepFailedFetch | src/crawlers/static/static_crawler.py:246-249 | a failed fetch is neither marked visited nor queued again, and records nothing |
| StaticCrawling.StepDuplicatePage | src/crawlers/static/static_crawler.py:252-259 | a duplicate page is marked visited but yields nothing and queues no links |
| StaticCrawling.ParseGating | src/crawlers/static/static_crawler.py:195-216 | `parse` yields no page iff the cleaned text is a duplicate |
| StaticCrawling.StepAcceptedPage | src/crawlers/static/static_crawler.py:261-302 | an accepted page yields one text record and one page record for its URL with one timestamp, and queues its unseen links |
| StaticCrawling.RunRecordsPaired | src/crawlers/static/static_crawler.py:269-292 | earlier records are kept, and text and page records pair up by URL and timestamp |
| StaticCrawling.RunNewPages | src/crawlers/static/static_crawler.py:241-292 | every recorded page is for a newly visited URL, and no URL is recorded twice |
| StaticCrawling.StepPaired | src/crawlers/static/static_crawler.py:239-292 | a step adds no record, or one pair for the popped URL |
| StaticCrawling.StaticCrawler.constructor | src/crawlers/static/static_crawler.py:18-36 | the base defaults, `page_limit` defaulting to 100, an empty visited set, zeroed metrics |
| StaticCrawling.StaticCrawler.ExtractLinks | src/crawlers/static/static_crawler.py:38-72 | the loop computes `LinksOf` |
| StaticCrawling.StaticCrawler.ExtractImages | src/crawlers/static/static_crawler.py:85-101 | the loop computes `ImagesOf`: one image per `<img src>`, in order |
| StaticCrawling.StaticCrawler.ExtractMetadata | src/crawlers/static/static_crawler.py:144-179 | the loop computes `Metadata` |
| StaticCrawling.StaticCrawler.Parse | src/crawlers/static/static_crawler.py:181-218 | the new hash set and the page are those of `ParseSpec` |
| StaticCrawling.StaticCrawler.EnqueueLinks | src/crawlers/static/static_crawler.py:299-302 | the loop computes `Enqueue` |
| StaticCrawling.StaticCrawler.CrawlPages | src/crawlers/static/static_crawler.py:230-305 | the generator loop ends in the state of `Run`: visited set, hash set, text records and page records; `pages_processed` counts the pages |
| StaticCrawling.StaticCrawler.PostCrawlProcessing | src/crawlers/static/static_crawler.py:334-381 | totals become the number of visited URLs; the summary and a sitemap of every visited URL, once each, are stored |
| StaticCrawling.SetToSeq | src/crawlers/static/static_crawler.py:371 | `list(visited_urls)` lists each member once |
| DynamicCrawling.FirstRendered | src/crawlers/dynamic/dynamic_crawler.py:46-80 | the first attempt that rendered, every earlier one failed; None when all fail |
| DynamicCrawling.AttemptAgents | src/crawlers/dynamic/dynamic_crawler.py:51-53 | each attempt is one render attempt carrying the session's User-Agent |
| DynamicCrawling.AttemptBackoff | src/crawlers/dynamic/dynamic_crawler.py:76-78 | only a failed attempt that is not the last one backs off, by `delay * (k + 1)` |
| DynamicCrawling.RenderWaitsClosedForm | src/crawlers/dynamic/dynamic_crawler.py:76-78 | the backoffs after failed attempts k, k+1, … are `delay * (k + 1)`, `delay * (k + 2)`, … |
| DynamicCrawling.BackoffEnd | src/crawlers/dynamic/dynamic_crawler.py:76-78 | the backoffs stop at the first rendered attempt, or before the last attempt |
| DynamicCrawling.RenderAttemptsResult | src/crawlers/dynamic/dynamic_crawler.py:46-80 | the first rendered page after `j - k + 1` render attempts; None after all of them |
| DynamicCrawling.RenderAttemptsBackoff | src/crawlers/dynamic/dynamic_crawler.py:73-78 | a backoff follows each failed attempt except the last one allowed |
| DynamicCrawling.RenderAttemptsAgents | src/crawlers/dynamic/dynamic_crawler.py:51-53 | the User-Agent is never rotated: every render attempt carries the session's |
| DynamicCrawling.RenderAttemptsSuccessTail | src/crawlers/dynamic/dynamic_crawler.py:59-72 | a success ends with the render wait and then the politeness delay |
| DynamicCrawling.RenderPageOutcome | src/crawlers/dynamic/dynamic_crawler.py:32-80 | at most `max_retries` attempts; None iff all failed; otherwise a rendered page |
| DynamicCrawling.RenderPageSuccessBackoff | src/crawlers/dynamic/dynamic_crawler.py:46-78 | when attempt j is the first rendered, the backoffs are delay, 2·delay, …, j·delay |
| DynamicCrawling.RenderPageFailureBackoff | src/crawlers/dynamic/dynamic_crawler.py:46-80 | when all fail, the backoffs are delay, …, (max_retries − 1)·delay |
| DynamicCrawling.CookieClicksAt | src/crawlers/dynamic/dynamic_crawler.py:121-128 | when the k-th selector is the first that is visible and whose click goes through, the clicks are exactly the visible selectors before it, in order, then that selector |
| DynamicCrawling.CookieClicksNone | src/crawlers/dynamic/dynamic_crawler.py:121-128 | when no visible selector's click goes through, the clicks are exactly the visible selectors, in order |
| DynamicCrawling.VisibleOf | src/crawlers/dynamic/dynamic_crawler.py:122-123 | a selector is kept iff it is one of the selectors and `is_visible` reports it visible |
| DynamicCrawling.VisibleOfAppend | src/crawlers/dynamic/dynamic_crawler.py:121-123 | filtering keeps order: the visible selectors of a concatenation are those of the first part, then those of the second |
| DynamicCrawling.VisibleOfOne | src/crawlers/dynamic/dynamic_crawler.py:122-123 | a single selector is kept iff `is_visible` reports it visible |
| DynamicCrawling.CookieClicksFirst | src/crawlers/dynamic/dynamic_crawler.py:121-128 | only visible selectors are clicked; every click but the last raised; some selector accepts iff the last click went through |
| DynamicCrawling.DynamicCrawler.constructor | src/crawlers/dynamic/dynamic_crawler.py:13-30 | the static crawler's defaults, and `wait_time` defaulting to 5 |
| DynamicCrawling.DynamicCrawler.GetPage | src/crawlers/dynamic/dynamic_crawler.py:32-80 | the loop returns `RenderPageSpec`'s body and appends its events to the trace |
| DynamicCrawling.DynamicCrawler.ScrollPage | src/crawlers/dynamic/dynamic_crawler.py:82-98 | it scrolls to every multiple of 300 below the height, in increasing order, then back to 0 |
| DynamicCrawling.DynamicCrawler.HandleCookiesPopup | src/crawlers/dynamic/dynamic_crawler.py:100-128 | the ten selectors are tried in order, with the clicks of `CookieClicks` |
| DynamicCrawling.DynamicCrawler.TrySelectors | src/crawlers/dynamic/dynamic_crawler.py:121-128 | the selector loop clicks exactly `CookieClicks` |
| S3Storing.KeyLayout | src/storage/s3_storage.py:126-149 | a key splits on '/' into its six fields, and the date fields read back as the date, month and day in two digits |
| S3Storing.IssueIsPrefix | src/storage/s3_storage.py:208-289 | issuing a plan logs a prefix of it: all of it, or up to and including the first rejected call, every earlier call accepted |
| S3Storing.SlicesCover | src/storage/s3_storage.py:245-249 | the 5 MiB slices concatenate to the payload; all are non-empty, all but the last are full |
| S3Storing.RawPlanMultipart | src/storage/s3_storage.py:224-272 | a payload of 5 MiB or more is created, uploaded as parts 1..n of its slices, and completed with those parts in order |
| S3Storing.FlushCover | src/storage/s3_storage.py:444-496 | every chunk lands in exactly one part, in order, and no part is empty |
| S3Storing.FlushThreshold | src/storage/s3_storage.py:446-474 | every part but the last weighs at least 5 MiB, and none reached it before its last chunk |
| S3Storing.TextPlanShape | src/storage/s3_storage.py:430-504 | the text upload creates, uploads part j as the j-th group, and completes with parts 1..n; no chunks still creates and completes |
| S3Storing.RawNeverAborts | src/storage/s3_storage.py:277-289 | the raw upload never issues an abort |
| S3Storing.TextNeverAborts | src/storage/s3_storage.py:509-522 | the text upload never issues an abort |
| S3Storing.FormatPut | src/storage/s3_storage.py:313-361 | a put only for json, parquet or csv, gzipped unless parquet |
| S3Storing.ExistsVerdict | src/storage/s3_storage.py:537-544 | true on success, false on a 404, and the error for any other code |
| S3Storing.Listing | src/storage/s3_storage.py:556-569 | the listed keys, nothing without Contents, the error on a rejection |
| S3Storing.S3Storage.constructor | src/storage/s3_storage.py:20-31 | the bucket and an empty call log |
| S3Storing.S3Storage.Send | src/storage/s3_storage.py:225-231 | one call is logged and answered |
| S3Storing.S3Storage.StreamRawData | src/storage/s3_storage.py:189-289 | no chunks: the key without a call; otherwise the log and the result of issuing `RawPlan` |
| S3Storing.S3Storage.UploadSlices | src/storage/s3_storage.py:235-275 | the log and the result of issuing the multipart plan of the payload's slices |
| S3Storing.S3Storage.SendSlice | src/storage/s3_storage.py:248-264 | one slice is uploaded as the next part, or the plan's outcome is settled |
| S3Storing.S3Storage.CompleteParts | src/storage/s3_storage.py:498-504 | completing settles the plan's outcome |
| S3Storing.S3Storage.TakeChunk | src/storage/s3_storage.py:444-477 | one chunk joins the buffer, and a full buffer is uploaded as the next part |
| S3Storing.S3Storage.StreamProcessedTextData | src/storage/s3_storage.py:407-522 | the log and the result of issuing `TextPlan` |
| S3Storing.S3Storage.FinishText | src/storage/s3_storage.py:479-504 | a non-empty buffer is the final part, then the completion |
| S3Storing.S3Storage.StoreProcessedData | src/storage/s3_storage.py:291-368 | an unsupported format fails before any call; otherwise one put of the serialised data |
| S3Storing.S3Storage.CheckFileExists | src/storage/s3_storage.py:527-544 | one head call, judged by `ExistsVerdict` |
| S3Storing.S3Storage.ListFiles | src/storage/s3_storage.py:546-569 | one listing call, judged by `Listing` |
| S3Storing.NewS3Storage | src/storage/s3_storage.py:30-31 | fails iff the access key, the secret or the bucket name is missing |
| NewsFetching.EntryArticle | src/news_api/news_api_client.py:99-109 | content falls back to the summary, then ""; url and the source fields default to "" |
| NewsFetching.UrlsOf | src/news_api/news_api_client.py:164 | the URL of every article, in order |
| NewsFetching.DedupUrls | src/news_api/news_api_client.py:161-168 | kept articles come from the input with non-empty URLs, no URL twice, and every non-empty URL kept |
| NewsFetching.DedupFirstSeen | src/news_api/news_api_client.py:161-168 | each kept article is the first with its URL, in first-seen order |
| NewsFetching.RssSources | src/news_api/news_api_client.py:155-158 | `rss:<url>` is listed iff that feed's fetch had no error |
| NewsFetching.RssSnoc | src/news_api/news_api_client.py:155-159 | one more feed adds its source and its articles only when it had no error |
| NewsFetching.NewsApiClient.constructor | src/news_api/news_api_client.py:13-22 | a non-empty given key wins over the configured one |
| NewsFetching.NewsApiClient.FetchNewsApi | src/news_api/news_api_client.py:24-81 | refuses an empty key; queries the given text or the keywords joined by " OR "; a request error gives no articles |
| NewsFetching.NewsApiClient.FetchRssFeed | src/news_api/news_api_client.py:83-127 | each entry becomes one article in order; a parser failure gives the error and no articles |
| NewsFetching.NewsApiClient.DedupArticles | src/news_api/news_api_client.py:161-168 | the dictionary loop computes `Dedup` |
| NewsFetching.NewsApiClient.CollectFeeds | src/news_api/news_api_client.py:155-159 | the feed loop lists the error-free feeds and their articles |
| NewsFetching.NewsApiClient.FetchLogisticsNews | src/news_api/news_api_client.py:129-171 | `newsapi` listed when a key is set, the error-free feeds, the de-duplicated articles and their count |
| NewsFetching.NewsApiClient.RssFetches | src/news_api/news_api_client.py:155-156 | one fetch result per feed |
| CrawlerFactory.CreateCrawler | src/crawlers/crawler_factory.py:12-31 | a rendering crawler iff `dynamic` is truthy, with the configured name and URL |
| CrawlerFactory.RegistryNames | src/crawlers/crawler_factory.py:44 | each configuration's name, "" when it has none |
| CrawlerFactory.RegistryLastWins | src/crawlers/crawler_factory.py:41-47 | one entry per distinct name, holding the last configuration with that name |
| CrawlerFactory.CreateAllCrawlers | src/crawlers/crawler_factory.py:33-47 | the crawlers have the registry's keys, each built from its registry configuration |
| PipelineDriver.NamesToCrawl | src/main.py:33-35 | the requested names, or every configured name (None when missing) when none is requested |
| PipelineDriver.FirstConfigIsFirst | src/main.py:57-61 | the lookup finds a configuration iff one has the name, and then the earliest |
| PipelineDriver.FindConfig | src/main.py:56-61 | the scan with `break` returns `FirstConfig` |
| PipelineDriver.Outcomes | src/main.py:53-102 | one record per name, in crawl order |
| PipelineDriver.TallyTotal | src/main.py:70-102 | every name is counted once, as a success or a failure; all succeed iff every record is a success |
| PipelineDriver.UnknownSiteFails | src/main.py:63-71 | a name without a configuration fails with a message naming it |
| PipelineDriver.WebsitesLastWins | src/main.py:66-101 | a name crawled twice keeps the record of its last crawl |
| PipelineDriver.Record | src/main.py:86-102 | one record entered under its name and counted |
| PipelineDriver.TalliedAll | src/main.py:38-107 | after the loop every name has an entry, and the counts add up to the number of names |
| PipelineDriver.CrawlOne | src/main.py:53-102 | one name's record is `SiteOutcome`, and a crawler is built only from a found, non-empty configuration |
| PipelineDriver.CrawlWebsites | src/main.py:21-107 | fails with the missing-credentials error before crawling any site iff an access key, the secret or the bucket name is missing, the first check `S3Storage()` at src/main.py:47 makes (src/storage/s3_storage.py:30-31). Otherwise the result dictionary maps each name to its last record, the counts are the successes and failures, `total_pages` stays 0, and the times are the clock readings |
| PipelineDriver.ChooseStages | src/main.py:186-208 | with no flag both stages run; sites are crawled iff names are given or `--all`; news iff `--news` or `--all` |

## Left out

- Parsers and libraries are oracles, and the model proves nothing about what they compute:
  - BeautifulSoup: `find_all`, `get_text`, script and style removal;
  - `urllib.parse.urljoin`; MD5; spaCy; `TfidfVectorizer` and `argsort`;
  - `json.dumps`, `gzip.compress`, pandas and pyarrow serialisation;
  - `feedparser`; `requests`; Playwright; boto3.
- Network failures are oracles indexed by attempt or call. Storage replies are indexed by
  call number.
- Sleeps are recorded as trace events, not waited for. `gc.collect` and `del` are left out.
- All logging, the `CrawlerLogger` metrics and the `print` calls are left out. The logger's
  saved metrics and its summary are not part of this model.
- The configuration module (`config.WEBSITES`, the pools, the delays, the credentials) is
  passed in as parameters.
- The crawl runs as a generator interleaved with the upload that consumes it. The model
  runs the crawl loop to completion and treats the stream as a finished sequence of
  records. In the driver, creating the crawler, crawling and streaming the raw data are one
  `attempt` oracle per site.
- `StaticCrawler.crawl`'s wrapper is left out. It calls `stream_processed_text_data` on the
  generator and then `_post_crawl_processing`, and saves metrics in `finally`. Each part is
  modelled on its own.
- `S3Storage._verify_bucket` and `_create_bucket` are left out: they are bucket setup
  through boto3 and its waiter. The constructor models only the credential check.
- `store_raw_data` and `store_processed_text_data` are left out: each is one put, the same
  shape as the single-put branch of `StreamRawData` and as `StoreProcessedData`.
- `load_data` is left out: it decodes replies by content type, which is serialisation.
- `fetch_news`, `save_results` and `main`'s summary print are left out: they are file I/O
  and printing. `ChooseStages` models `main`'s stage choice.
- The NewsAPI `from` date is a parameter. `today - timedelta(days)` date arithmetic is not
  modelled.
- `TextProcessing.Process`: `extract_entities` is one oracle over the whole text. Its
  100000-character chunking and the merge of labels across chunks are not modelled.
- `BaseCrawling.BaseCrawler.GetPage`: the robots.txt branch is the stub, which always
  allows.
- `DynamicCrawling.DynamicCrawler.ScrollPage`: the 0.5 s sleeps between scroll steps are
  not recorded.
- `DynamicCrawling.DynamicCrawler.HandleCookiesPopup`: the 0.5 s sleep after a click is not
  recorded.
- `Strings.Lower`: only ASCII A–Z are lower-cased. Python's `lower` is Unicode-aware.
- `Strings.IsSpace` is Python's whitespace set for `str.split` and `str.strip`.
  `Strings.IsLineBreak` is the break set of `splitlines`.
- `TextProcessing.Truncate`: which digests survive depends on the set's iteration order.
  The model fixes that order as the `slot` oracle, one order shared by every set, and
  `TextProcessing.JustRecordedCanBeEvicted` relies on it: a digest first under `slot` is
  among the dropped ones. CPython's hash-based set order promises nothing of the kind; it
  can differ between sets with the same members.
- `StaticCrawling.StaticCrawler.CrawlPages`: each `self.get_page(url)` of the crawl loop
  (src/crawlers/static/static_crawler.py:246) is the `fetch` oracle, not a call of the
  modelled `GetPage`. So the User-Agent rotation before each attempt and the backoff and
  politeness sleeps of the crawl's fetches are not recorded, and the crawl leaves the
  session's User-Agent and trace as they were. Those effects are modelled in
  `BaseCrawling.BaseCrawler.GetPage` and `DynamicCrawling.DynamicCrawler.GetPage` alone.
- `PipelineDriver.CrawlWebsites`: fails only on a missing access key, secret or bucket name.
  With all three present, `S3Storage()` can still raise from its bucket verification
  (src/storage/s3_storage.py:42-46, 63-75): a ValueError on a 403 or an invalid key, or the
  client error itself otherwise. That verification is left out, as said above, so the model
  always goes on to crawl.
- A `SiteConfig` holds only the keys the core reads: name, url, dynamic, page_limit and
  wait_time. An "empty" configuration (falsy in `crawl_websites`) is one with all of them
  missing.
