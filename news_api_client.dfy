/**
 * The news client: one NewsAPI query, RSS feeds mapped to a common article shape, and the
 * combined logistics digest with its URL de-duplication. The HTTP service and the feed
 * parser are oracles of the client; clock readings are parameters.
 */
module NewsFetching {
  import opened Wrappers
  import opened Seqs

  const BaseUrl: string := "https://newsapi.org/v2"
  const DefaultKeywords: seq<string> := ["logistics", "supply chain", "freight", "shipping"]
  const DefaultDays: nat := 1
  const DefaultPageSize: nat := 100

  /** The three logistics feeds, in the order they are read. */
  const LogisticsFeeds: seq<string> := [
    "https://www.supplychaindive.com/feeds/news/",
    "https://www.freightwaves.com/news/feed",
    "https://theloadstar.com/feed/"
  ]

  /** An article in the common shape; `url` is None when the record has no url key. */
  datatype Article = Article(title: string, description: string, content: string, url: Option<string>,
                             publishedAt: string, sourceName: string, sourceUrl: string)

  /** One feed entry as the feed parser reports it; None stands for a missing key. */
  datatype Entry = Entry(title: Option<string>, description: Option<string>, content: Option<string>,
                         summary: Option<string>, link: Option<string>, published: Option<string>)

  datatype Feed = Feed(title: Option<string>, link: Option<string>, entries: seq<Entry>)

  /** The query sent to the `everything` endpoint. */
  datatype ApiRequest = ApiRequest(url: string, q: string, from: string, sortBy: string,
                                   language: string, pageSize: nat, apiKey: string)

  /** A fetch result: the articles, or the error text that replaced them. */
  datatype ApiResult = ApiResult(query: string, timestamp: string, error: Option<string>, articles: seq<Article>)
  datatype RssResult = RssResult(feedUrl: string, timestamp: string, error: Option<string>, articles: seq<Article>)

  datatype Digest = Digest(timestamp: string, sources: seq<string>, articles: seq<Article>, totalArticles: nat)

  datatype NewsError = MissingApiKey

  /** Python's `sep.join(ws)`. */
  function JoinStr(ws: seq<string>, sep: string): string {
    if ws == [] then [] else if |ws| == 1 then ws[0] else ws[0] + sep + JoinStr(ws[1..], sep)
  }

  /** The query used when none is given: the keywords joined by " OR ". */
  function DefaultQuery(keywords: seq<string>): string {
    JoinStr(keywords, " OR ")
  }

  /** The common article shape of one feed entry: content falls back to the summary, then "". */
  function EntryArticle(e: Entry, feed: Feed): (a: Article)
    ensures a.content == (if e.content.Some? then e.content.value
                          else if e.summary.Some? then e.summary.value else "")
    ensures a.url == Some(e.link.GetOr(""))
    ensures a.sourceName == feed.title.GetOr("") && a.sourceUrl == feed.link.GetOr("")
  {
    Article(e.title.GetOr(""), e.description.GetOr(""), e.content.GetOr(e.summary.GetOr("")),
            Some(e.link.GetOr("")), e.published.GetOr(""), feed.title.GetOr(""), feed.link.GetOr(""))
  }

  // ---------------------------------------------------------------------------
  // De-duplication by URL

  /** The URL a record is keyed by; a missing url counts as "". */
  function UrlOf(a: Article): string {
    a.url.GetOr("")
  }

  function UrlsOf(arts: seq<Article>): (us: seq<string>)
    ensures |us| == |arts| && forall i :: 0 <= i < |arts| ==> us[i] == UrlOf(arts[i])
  {
    seq(|arts|, i requires 0 <= i < |arts| => UrlOf(arts[i]))
  }

  /**
   * The articles kept by the URL dictionary: one per distinct non-empty URL, the first one
   * seen, in the order first seen.
   */
  function Dedup(arts: seq<Article>): seq<Article> {
    if arts == [] then []
    else
      var kept := Dedup(arts[..|arts| - 1]);
      var a := arts[|arts| - 1];
      if UrlOf(a) != "" && UrlOf(a) !in UrlsOf(kept) then kept + [a] else kept
  }

  lemma UrlsOfSnoc(arts: seq<Article>, a: Article)
    ensures UrlsOf(arts + [a]) == UrlsOf(arts) + [UrlOf(a)]
  {
  }

  lemma UrlsOfPrefix(arts: seq<Article>, n: nat)
    requires n <= |arts|
    ensures UrlsOf(arts[..n]) == UrlsOf(arts)[..n]
  {
  }

  /**
   * Every kept article comes from the input and has a non-empty URL, no URL is kept twice,
   * and every non-empty URL of the input is kept.
   */
  lemma {:induction false} DedupUrls(arts: seq<Article>)
    ensures forall k :: 0 <= k < |Dedup(arts)| ==> Dedup(arts)[k] in arts && UrlOf(Dedup(arts)[k]) != ""
    ensures NoDups(UrlsOf(Dedup(arts)))
    ensures forall a :: a in arts && UrlOf(a) != "" ==> UrlOf(a) in UrlsOf(Dedup(arts))
  {
    if arts != [] {
      var p := arts[..|arts| - 1];
      var a := arts[|arts| - 1];
      var kept := Dedup(p);
      DedupUrls(p);
      assert arts == p + [a];
      if UrlOf(a) != "" && UrlOf(a) !in UrlsOf(kept) {
        UrlsOfSnoc(kept, a);
      }
    }
  }

  /**
   * First occurrence wins and order is first-seen order: each kept article is the input's
   * first article with its URL, and kept articles appear in the order of those positions.
   */
  lemma {:induction false} DedupFirstSeen(arts: seq<Article>)
    ensures forall k :: 0 <= k < |Dedup(arts)| ==>
              UrlOf(Dedup(arts)[k]) in UrlsOf(arts)
              && Dedup(arts)[k] == arts[FirstIndex(UrlsOf(arts), UrlOf(Dedup(arts)[k]))]
    ensures forall k, l :: 0 <= k < l < |Dedup(arts)| ==>
              FirstIndex(UrlsOf(arts), UrlOf(Dedup(arts)[k])) < FirstIndex(UrlsOf(arts), UrlOf(Dedup(arts)[l]))
  {
    if arts != [] {
      var n := |arts| - 1;
      var p := arts[..n];
      var a := arts[n];
      var kept := Dedup(p);
      var us := UrlsOf(arts);
      DedupFirstSeen(p);
      DedupUrls(p);
      UrlsOfPrefix(arts, n);
      forall k | 0 <= k < |kept|
        ensures UrlOf(kept[k]) in us[..n] && FirstIndex(us, UrlOf(kept[k])) == FirstIndex(UrlsOf(p), UrlOf(kept[k]))
        ensures FirstIndex(us, UrlOf(kept[k])) < n
      {
        FirstIndexOfPrefix(us, n, UrlOf(kept[k]));
      }
      if UrlOf(a) != "" && UrlOf(a) !in UrlsOf(kept) {
        var r := kept + [a];
        assert UrlOf(a) !in us[..n] by {
          forall j | 0 <= j < n ensures us[j] != UrlOf(a) {
            assert p[j] in p;
          }
        }
        assert us[n] == UrlOf(a);
        assert FirstIndex(us, UrlOf(a)) == n by {
          assert us[..n + 1] == us;
        }
        assert r[|kept|] == a;
      }
    }
  }

  // ---------------------------------------------------------------------------
  // The digest

  /** The RSS sources listed: `rss:<url>` for each feed whose fetch reported no error. */
  function RssSources(feeds: seq<string>, results: seq<RssResult>): (s: seq<string>)
    requires |results| == |feeds|
    ensures |s| <= |feeds|
    ensures forall f :: ("rss:" + f) in s <==> exists i :: 0 <= i < |feeds| && feeds[i] == f && results[i].error.None?
  {
    if feeds == [] then []
    else
      var rest := RssSources(feeds[1..], results[1..]);
      var s := if results[0].error.None? then ["rss:" + feeds[0]] + rest else rest;
      assert forall f :: ("rss:" + f) in s <==> (results[0].error.None? && feeds[0] == f) || ("rss:" + f) in rest by {
        forall f ensures ("rss:" + f) == ("rss:" + feeds[0]) <==> f == feeds[0] {
          if ("rss:" + f) == ("rss:" + feeds[0]) {
            assert f == ("rss:" + f)[4..];
          }
        }
      }
      s
  }

  /** The articles of the RSS fetches that reported no error, in feed order. */
  function RssArticles(results: seq<RssResult>): seq<Article> {
    if results == [] then []
    else (if results[0].error.None? then results[0].articles else []) + RssArticles(results[1..])
  }

  class NewsApiClient {
    const apiKey: string
    const keywords: seq<string>
    /** The HTTP service: the articles of a response (None when it has no `articles` key), or the request error. */
    const get: ApiRequest -> Result<Option<seq<Article>>, string>
    /** The feed parser: the parsed feed, or the exception's text. */
    const parse: string -> Result<Feed, string>

    /** The given key wins when it is non-empty; otherwise the configured one is used. */
    constructor (apiKey: Option<string>, configuredKey: string,
                 get: ApiRequest -> Result<Option<seq<Article>>, string>,
                 parse: string -> Result<Feed, string>)
      ensures this.apiKey == (if apiKey.Some? && apiKey.value != [] then apiKey.value else configuredKey)
      ensures keywords == DefaultKeywords && this.get == get && this.parse == parse
    {
      this.apiKey := if apiKey.Some? && apiKey.value != [] then apiKey.value else configuredKey;
      keywords := DefaultKeywords;
      this.get := get;
      this.parse := parse;
    }

    /** The request `fetch_news_api` sends for `query` and the start date `from`. */
    function Request(query: string, from: string, pageSize: nat): ApiRequest {
      ApiRequest(BaseUrl + "/everything", query, from, "publishedAt", "en", pageSize, apiKey)
    }

    /**
     * `fetch_news_api`: refuses an empty key; queries the given text, or the keywords joined
     * by " OR "; a request error becomes a result with that error and no articles.
     */
    method FetchNewsApi(query: Option<string>, from: string, pageSize: nat, now: string)
      returns (r: Result<ApiResult, NewsError>)
      ensures apiKey == [] <==> r.Err?
      ensures r.Ok? ==> r.value.query == (if query.Some? && query.value != [] then query.value else DefaultQuery(keywords))
      ensures r.Ok? ==> r.value.timestamp == now
      ensures r.Ok? ==> match get(Request(r.value.query, from, pageSize))
                        case Ok(arts) => r.value.error == None && r.value.articles == arts.GetOr([])
                        case Err(e) => r.value.error == Some(e) && r.value.articles == []
    {
      if apiKey == [] {
        return Err(MissingApiKey);
      }
      var q := if query.Some? && query.value != [] then query.value else JoinStr(keywords, " OR ");
      var response := get(Request(q, from, pageSize));
      match response
      case Ok(arts) => r := Ok(ApiResult(q, now, None, arts.GetOr([])));
      case Err(e) => r := Ok(ApiResult(q, now, Some(e), []));
    }

    /**
     * `fetch_rss_feed`: each entry becomes one article, in order; a parser failure becomes a
     * result with that error and no articles.
     */
    method FetchRssFeed(feedUrl: string, now: string) returns (r: RssResult)
      ensures r == RssFetch(feedUrl, now)
      ensures r.feedUrl == feedUrl && r.timestamp == now
      ensures parse(feedUrl).Err? ==> r.error == Some(parse(feedUrl).error) && r.articles == []
      ensures parse(feedUrl).Ok? ==>
                var feed := parse(feedUrl).value;
                && r.error == None
                && |r.articles| == |feed.entries|
                && forall i :: 0 <= i < |feed.entries| ==> r.articles[i] == EntryArticle(feed.entries[i], feed)
    {
      var parsed := parse(feedUrl);
      if parsed.Err? {
        return RssResult(feedUrl, now, Some(parsed.error), []);
      }
      var feed := parsed.value;
      var articles: seq<Article> := [];
      var i := 0;
      while i < |feed.entries|
        invariant 0 <= i <= |feed.entries|
        invariant |articles| == i
        invariant forall j :: 0 <= j < i ==> articles[j] == EntryArticle(feed.entries[j], feed)
      {
        articles := articles + [EntryArticle(feed.entries[i], feed)];
        i := i + 1;
      }
      r := RssResult(feedUrl, now, None, articles);
    }

    /** The URL dictionary of `fetch_logistics_news`, filled in one pass. */
    method DedupArticles(arts: seq<Article>) returns (unique: seq<Article>)
      ensures unique == Dedup(arts)
    {
      var byUrl: map<string, Article> := map[];
      var order: seq<string> := [];
      var i := 0;
      while i < |arts|
        invariant 0 <= i <= |arts|
        invariant order == UrlsOf(Dedup(arts[..i]))
        invariant byUrl.Keys == set u | u in order
        invariant forall k :: 0 <= k < |order| ==> byUrl[order[k]] == Dedup(arts[..i])[k]
      {
        var a := arts[i];
        var url := UrlOf(a);
        assert arts[..i + 1] == arts[..i] + [a];
        assert arts[..i + 1][..i] == arts[..i];
        if url != "" && url !in byUrl {
          UrlsOfSnoc(Dedup(arts[..i]), a);
          byUrl := byUrl[url := a];
          order := order + [url];
        }
        i := i + 1;
      }
      unique := seq(|order|, k requires 0 <= k < |order| => byUrl[order[k]]);
      assert arts[..i] == arts;
    }

    /** The feed loop of `fetch_logistics_news`: each feed is fetched, and kept when it has no error. */
    method CollectFeeds(feeds: seq<string>, now: string) returns (sources: seq<string>, articles: seq<Article>)
      ensures var rss := RssFetches(feeds, now);
              sources == RssSources(feeds, rss) && articles == RssArticles(rss)
    {
      sources, articles := [], [];
      var i := 0;
      while i < |feeds|
        invariant 0 <= i <= |feeds|
        invariant sources == RssSources(feeds[..i], RssFetches(feeds[..i], now))
        invariant articles == RssArticles(RssFetches(feeds[..i], now))
      {
        var feedUrl := feeds[i];
        var data := FetchRssFeed(feedUrl, now);
        assert feeds[..i + 1] == feeds[..i] + [feedUrl];
        RssFetchesSnoc(feeds[..i], feedUrl, now);
        RssSnoc(feeds[..i], RssFetches(feeds[..i], now), feedUrl, data);
        if data.error.None? {
          sources := sources + ["rss:" + feedUrl];
          articles := articles + data.articles;
        }
        i := i + 1;
      }
      assert feeds[..i] == feeds;
    }

    /**
     * `fetch_logistics_news`: NewsAPI when a key is set (listed even if it failed), then each
     * logistics feed (listed only without an error), articles de-duplicated by URL.
     */
    method FetchLogisticsNews(from: string, now: string) returns (d: Digest)
      ensures var rss := RssFetches(LogisticsFeeds, now);
              && d.timestamp == now
              && d.sources == (if apiKey != [] then ["newsapi"] else []) + RssSources(LogisticsFeeds, rss)
              && d.articles == Dedup(ApiArticles(from, now) + RssArticles(rss))
              && d.totalArticles == |d.articles|
    {
      var sources: seq<string> := [];
      var articles: seq<Article> := [];
      if apiKey != [] {
        var data := FetchNewsApi(None, from, DefaultPageSize, now);
        assert data.value.query == DefaultQuery(keywords);
        sources := ["newsapi"];
        articles := data.value.articles;
      }
      assert articles == ApiArticles(from, now);
      var rssSources, rssArticles := CollectFeeds(LogisticsFeeds, now);
      sources := sources + rssSources;
      articles := articles + rssArticles;
      var unique := DedupArticles(articles);
      d := Digest(now, sources, unique, |unique|);
    }

    /** What `fetch_rss_feed` returns for each feed, in order. */
    function RssFetches(feeds: seq<string>, now: string): (rs: seq<RssResult>)
      ensures |rs| == |feeds|
    {
      seq(|feeds|, i requires 0 <= i < |feeds| => RssFetch(feeds[i], now))
    }

    lemma RssFetchesSnoc(feeds: seq<string>, f: string, now: string)
      ensures RssFetches(feeds + [f], now) == RssFetches(feeds, now) + [RssFetch(f, now)]
    {
    }

    /** The articles the NewsAPI step contributes: none without a key. */
    function ApiArticles(from: string, now: string): seq<Article> {
      if apiKey == [] then []
      else match get(Request(DefaultQuery(keywords), from, DefaultPageSize))
        case Ok(arts) => arts.GetOr([])
        case Err(_) => []
    }

    /** What `fetch_rss_feed` returns for one feed. */
    function RssFetch(feedUrl: string, now: string): RssResult {
      match parse(feedUrl)
      case Err(e) => RssResult(feedUrl, now, Some(e), [])
      case Ok(feed) => RssResult(feedUrl, now, None, seq(|feed.entries|, i requires 0 <= i < |feed.entries| => EntryArticle(feed.entries[i], feed)))
    }
  }

  lemma {:induction false} RssSnoc(feeds: seq<string>, results: seq<RssResult>, f: string, r: RssResult)
    requires |feeds| == |results|
    ensures RssSources(feeds + [f], results + [r]) == RssSources(feeds, results) + (if r.error.None? then ["rss:" + f] else [])
    ensures RssArticles(results + [r]) == RssArticles(results) + (if r.error.None? then r.articles else [])
  {
    if feeds != [] {
      assert (feeds + [f])[1..] == feeds[1..] + [f];
      assert (results + [r])[1..] == results[1..] + [r];
      RssSnoc(feeds[1..], results[1..], f, r);
    }
  }
}
