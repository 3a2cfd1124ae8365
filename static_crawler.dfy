/**
 * The static-site crawler: the link filter, the text clean-up, the metadata
 * precedence, page parsing through the text processor's dedup ledger, the
 * breadth-first crawl loop over a FIFO frontier bounded by `page_limit`, and
 * the metric finalisation after a crawl.
 *
 * Page fetches are an oracle indexed by the number of fetches so far; HTML
 * parsing, URL joining, URL hashing and the clock are oracles as well.
 */
module StaticCrawling {
  import opened Wrappers
  import opened Strings
  import opened Seqs
  import opened BaseCrawling
  import opened TextProcessing

  /** `page_limit` when the configuration has none. */
  const DefaultPageLimit := 100

  // ---------------------------------------------------------------------------
  // extract_links

  /** Empty hrefs, in-page anchors and `javascript:` links are never followed. */
  predicate SkippedHref(href: string) {
    href == [] || StartsWith(href, "#") || StartsWith(href, "javascript:")
  }

  /** The links `extract_links` keeps from the page's hrefs, in document order. */
  function LinksOf(hrefs: seq<string>, pageUrl: string, baseUrl: string, join: (string, string) -> string): (links: seq<string>)
    ensures forall x :: x in links ==> StartsWith(x, baseUrl)
  {
    if hrefs == [] then []
    else
      var rest := LinksOf(hrefs[1..], pageUrl, baseUrl, join);
      if SkippedHref(hrefs[0]) then rest
      else
        var absolute := join(pageUrl, hrefs[0]);
        if StartsWith(absolute, baseUrl) then [absolute] + rest else rest
  }

  /** A link is kept exactly when some href that is not skipped resolves to it under the base URL. */
  lemma {:induction false} LinksOfMembers(hrefs: seq<string>, pageUrl: string, baseUrl: string,
                                          join: (string, string) -> string, x: string)
    ensures x in LinksOf(hrefs, pageUrl, baseUrl, join) <==>
              exists i :: 0 <= i < |hrefs| && !SkippedHref(hrefs[i]) && join(pageUrl, hrefs[i]) == x && StartsWith(x, baseUrl)
  {
    if hrefs != [] {
      LinksOfMembers(hrefs[1..], pageUrl, baseUrl, join, x);
      if exists i :: 0 <= i < |hrefs[1..]| && !SkippedHref(hrefs[1..][i]) && join(pageUrl, hrefs[1..][i]) == x && StartsWith(x, baseUrl) {
        var i :| 0 <= i < |hrefs[1..]| && !SkippedHref(hrefs[1..][i]) && join(pageUrl, hrefs[1..][i]) == x && StartsWith(x, baseUrl);
        assert hrefs[i + 1] == hrefs[1..][i];
      }
      if exists i :: 0 <= i < |hrefs| && !SkippedHref(hrefs[i]) && join(pageUrl, hrefs[i]) == x && StartsWith(x, baseUrl) {
        var i :| 0 <= i < |hrefs| && !SkippedHref(hrefs[i]) && join(pageUrl, hrefs[i]) == x && StartsWith(x, baseUrl);
        if i > 0 {
          assert hrefs[1..][i - 1] == hrefs[i];
        }
      }
    }
  }

  /** The filter works href by href: the links of a document are those of its parts, in order. */
  lemma {:induction false} LinksOfAppend(a: seq<string>, b: seq<string>, pageUrl: string, baseUrl: string,
                                         join: (string, string) -> string)
    ensures LinksOf(a + b, pageUrl, baseUrl, join) == LinksOf(a, pageUrl, baseUrl, join) + LinksOf(b, pageUrl, baseUrl, join)
  {
    if a == [] {
      assert a + b == b;
    } else {
      assert (a + b)[0] == a[0];
      assert (a + b)[1..] == a[1..] + b;
      LinksOfAppend(a[1..], b, pageUrl, baseUrl, join);
    }
  }

  // ---------------------------------------------------------------------------
  // extract_text

  /** The non-empty stripped phrases of one line's double-space split. */
  function StrippedPhrases(parts: seq<string>): (ps: seq<string>)
    ensures forall p :: p in ps ==> p != [] && Stripped(p)
  {
    if parts == [] then []
    else
      var p := Strip(parts[0]);
      var rest := StrippedPhrases(parts[1..]);
      if p == [] then rest else [p] + rest
  }

  /** The phrases of every line, each line stripped and split on double spaces. */
  function LinePhrases(lines: seq<string>): (ps: seq<string>)
    ensures forall p :: p in ps ==> p != [] && Stripped(p)
  {
    if lines == [] then []
    else
      var first, rest := Phrases(lines[0]), LinePhrases(lines[1..]);
      PhrasesConcat(first, rest);
      first + rest
  }

  lemma PhrasesConcat(a: seq<string>, b: seq<string>)
    requires forall p :: p in a ==> p != [] && Stripped(p)
    requires forall p :: p in b ==> p != [] && Stripped(p)
    ensures forall p :: p in a + b ==> p != [] && Stripped(p)
  {
  }

  /** The phrases of one line: stripped, split on double spaces, each piece stripped, empty ones dropped. */
  function Phrases(line: string): (ps: seq<string>)
    ensures forall p :: p in ps ==> p != [] && Stripped(p)
  {
    StrippedPhrases(SplitOnDoubleSpace(Strip(line)))
  }

  lemma {:induction false} StrippedPhrasesChars(parts: seq<string>, c: char)
    requires forall part :: part in parts ==> c !in part
    ensures forall p :: p in StrippedPhrases(parts) ==> c !in p
  {
    if parts != [] {
      StrippedPhrasesChars(parts[1..], c);
      assert parts[0] in parts;
      StripChars(parts[0], c);
    }
  }

  /** A character absent from every line is absent from every phrase. */
  lemma {:induction false} LinePhrasesChars(lines: seq<string>, c: char)
    requires forall line :: line in lines ==> c !in line
    ensures forall p :: p in LinePhrases(lines) ==> c !in p
  {
    if lines != [] {
      LinePhrasesChars(lines[1..], c);
      assert lines[0] in lines;
      var parts := SplitOnDoubleSpace(Strip(lines[0]));
      StripChars(lines[0], c);
      forall part | part in parts ensures c !in part {
        var j :| 0 <= j < |parts| && parts[j] == part;
      }
      StrippedPhrasesChars(parts, c);
    }
  }

  /** `extract_text`'s clean-up of the page's visible text. */
  function CleanText(text: string): string {
    JoinWith(LinePhrases(SplitLines(text)), '\n')
  }

  /** Every line of the cleaned text is a non-empty phrase with no surrounding whitespace. */
  lemma CleanTextLines(text: string)
    ensures var r := CleanText(text);
            var ps := LinePhrases(SplitLines(text));
            && (r == [] <==> ps == [])
            && (r != [] ==> SplitOnChar(r, '\n') == ps)
            && forall p :: p in ps ==> p != [] && Stripped(p) && '\n' !in p
  {
    var lines := SplitLines(text);
    SplitLinesNoNewline(text);
    LinePhrasesChars(lines, '\n');
    JoinPhrasesRoundTrip(LinePhrases(lines));
  }

  /** No line of `splitlines` holds a `\n`. */
  lemma SplitLinesNoNewline(text: string)
    ensures forall line :: line in SplitLines(text) ==> '\n' !in line
  {
    var lines := SplitLines(text);
    assert IsLineBreak('\n');
    forall line | line in lines ensures '\n' !in line {
      var j :| 0 <= j < |lines| && lines[j] == line;
    }
  }

  /** Non-empty phrases without a `\n`, joined by `\n`, split back into the same phrases. */
  lemma JoinPhrasesRoundTrip(ps: seq<string>)
    requires forall p :: p in ps ==> p != [] && '\n' !in p
    ensures JoinWith(ps, '\n') == [] <==> ps == []
    ensures ps != [] ==> SplitOnChar(JoinWith(ps, '\n'), '\n') == ps
  {
    if ps != [] {
      assert forall k :: 0 <= k < |ps| ==> ps[k] in ps && '\n' !in ps[k];
      SplitJoinRoundTrip(ps, '\n');
      assert ps[0] in ps;
      JoinNonEmpty(ps, '\n');
    }
  }

  lemma {:induction false} JoinNonEmpty(ws: seq<string>, sep: char)
    requires ws != [] && ws[0] != []
    ensures JoinWith(ws, sep) != []
  {
    if |ws| > 1 {
      assert JoinWith(ws, sep) == ws[0] + [sep] + JoinWith(ws[1..], sep);
    }
  }

  // ---------------------------------------------------------------------------
  // extract_metadata

  /** A `<meta>` tag's `name`, `property` and `content` attributes. */
  datatype MetaTag = MetaTag(name: Option<string>, property: Option<string>, content: Option<string>)

  /** Python truthiness of an optional attribute: present and non-empty. */
  predicate Present(o: Option<string>) {
    o.Some? && o.value != []
  }

  /** The key a meta tag is stored under: `name`, else `property`, and only with a `content`. */
  function MetaKey(m: MetaTag): (k: Option<string>)
    ensures k.Some? ==> Present(m.content) && k.value != []
    ensures Present(m.name) && Present(m.content) ==> k == m.name
    ensures !Present(m.name) && Present(m.property) && Present(m.content) ==> k == m.property
    ensures k.None? <==> !Present(m.content) || (!Present(m.name) && !Present(m.property))
  {
    if Present(m.name) && Present(m.content) then m.name
    else if Present(m.property) && Present(m.content) then m.property
    else None
  }

  function Put(md: map<string, Option<string>>, m: MetaTag): map<string, Option<string>> {
    if MetaKey(m).Some? then md[MetaKey(m).value := m.content] else md
  }

  function MetaFold(md: map<string, Option<string>>, metas: seq<MetaTag>): map<string, Option<string>>
    decreases |metas|
  {
    if metas == [] then md else MetaFold(Put(md, metas[0]), metas[1..])
  }

  /**
   * The metadata of a page: `title` when the page has a title tag (its
   * string, which may be None), then each meta tag in order, a later tag
   * overwriting an earlier one with the same key.
   */
  function Metadata(title: Option<Option<string>>, metas: seq<MetaTag>): map<string, Option<string>> {
    MetaFold(if title.Some? then map["title" := title.value] else map[], metas)
  }

  /** The keys of the fold: the initial keys and the key of every meta tag that has one. */
  lemma {:induction false} MetaFoldKeys(md: map<string, Option<string>>, metas: seq<MetaTag>, k: string)
    ensures k in MetaFold(md, metas) <==> k in md || exists i :: 0 <= i < |metas| && MetaKey(metas[i]) == Some(k)
    ensures (forall i :: 0 <= i < |metas| ==> MetaKey(metas[i]) != Some(k)) && k in md ==> MetaFold(md, metas)[k] == md[k]
    decreases |metas|
  {
    if metas != [] {
      MetaFoldKeys(Put(md, metas[0]), metas[1..], k);
      if exists i :: 0 <= i < |metas| && MetaKey(metas[i]) == Some(k) {
        var i :| 0 <= i < |metas| && MetaKey(metas[i]) == Some(k);
        if i > 0 {
          assert MetaKey(metas[1..][i - 1]) == Some(k);
        }
      }
      if exists i :: 0 <= i < |metas[1..]| && MetaKey(metas[1..][i]) == Some(k) {
        var i :| 0 <= i < |metas[1..]| && MetaKey(metas[1..][i]) == Some(k);
        assert MetaKey(metas[i + 1]) == Some(k);
      }
      if forall i :: 0 <= i < |metas| ==> MetaKey(metas[i]) != Some(k) {
        assert MetaKey(metas[0]) != Some(k);
        forall i | 0 <= i < |metas[1..]| ensures MetaKey(metas[1..][i]) != Some(k) {
          assert metas[1..][i] == metas[i + 1];
        }
      }
    }
  }

  /** The last meta tag with a given key decides its value. */
  lemma {:induction false} MetaFoldLastWins(md: map<string, Option<string>>, metas: seq<MetaTag>, k: string, i: nat)
    requires i < |metas| && MetaKey(metas[i]) == Some(k)
    requires forall j :: i < j < |metas| ==> MetaKey(metas[j]) != Some(k)
    ensures k in MetaFold(md, metas) && MetaFold(md, metas)[k] == metas[i].content
    decreases |metas|
  {
    if i == 0 {
      var md' := Put(md, metas[0]);
      forall j | 0 <= j < |metas[1..]| ensures MetaKey(metas[1..][j]) != Some(k) {
        assert metas[1..][j] == metas[j + 1];
      }
      MetaFoldKeys(md', metas[1..], k);
    } else {
      forall j | i - 1 < j < |metas[1..]| ensures MetaKey(metas[1..][j]) != Some(k) {
        assert metas[1..][j] == metas[j + 1];
      }
      MetaFoldLastWins(Put(md, metas[0]), metas[1..], k, i - 1);
    }
  }

  /**
   * `extract_metadata`'s precedence: a key is present iff the title tag or
   * some meta tag supplies it; the last meta tag for a key wins, and the
   * title survives only when no meta tag is keyed `title`.
   */
  lemma MetadataPrecedence(title: Option<Option<string>>, metas: seq<MetaTag>, k: string)
    ensures var md := Metadata(title, metas);
            && (k in md <==> (k == "title" && title.Some?) || exists i :: 0 <= i < |metas| && MetaKey(metas[i]) == Some(k))
            && (forall i :: (0 <= i < |metas| && MetaKey(metas[i]) == Some(k) &&
                             (forall j :: i < j < |metas| ==> MetaKey(metas[j]) != Some(k))) ==> md[k] == metas[i].content)
            && (k == "title" && title.Some? && (forall i :: 0 <= i < |metas| ==> MetaKey(metas[i]) != Some(k)) ==>
                  md[k] == title.value)
  {
    var init: map<string, Option<string>> := if title.Some? then map["title" := title.value] else map[];
    MetaFoldKeys(init, metas, k);
    forall i | 0 <= i < |metas| && MetaKey(metas[i]) == Some(k) && (forall j :: i < j < |metas| ==> MetaKey(metas[j]) != Some(k))
      ensures Metadata(title, metas)[k] == metas[i].content
    {
      MetaFoldLastWins(init, metas, k, i);
    }
  }

  // ---------------------------------------------------------------------------
  // Pages and parsing

  /** An `<img>` tag with a `src`, and its optional `alt`. */
  datatype ImgTag = ImgTag(src: string, alt: Option<string>)

  datatype Image = Image(url: string, altText: string)

  /** What the HTML parser and `urllib` give the crawler, as functions of the page's HTML. */
  datatype Dom = Dom(
    text: string -> string,
    images: string -> seq<ImgTag>,
    title: string -> Option<Option<string>>,
    metas: string -> seq<MetaTag>,
    hrefs: string -> seq<string>,
    urljoin: (string, string) -> string,
    urlHash: string -> string)

  /** `extract_images`: every image resolved against the crawler's base URL, `alt` defaulting to "". */
  function ImagesOf(imgs: seq<ImgTag>, baseUrl: string, join: (string, string) -> string): (r: seq<Image>)
    ensures |r| == |imgs|
    ensures forall i :: 0 <= i < |imgs| ==> r[i] == Image(join(baseUrl, imgs[i].src), imgs[i].alt.GetOr(""))
  {
    if imgs == [] then []
    else
      var rest := ImagesOf(imgs[1..], baseUrl, join);
      assert forall i :: 1 <= i < |imgs| ==> imgs[1..][i - 1] == imgs[i];
      [Image(join(baseUrl, imgs[0].src), imgs[0].alt.GetOr(""))] + rest
  }

  /** The result of `parse` for a page whose text is not a duplicate. */
  datatype Parsed = Parsed(text: string, images: seq<Image>, metadata: map<string, Option<string>>, html: string, processed: Processed)

  /** `parse`: extract, then process the text; None when the text processor reports a duplicate. */
  function ParseSpec(co: Collaborators, dom: Dom, baseUrl: string, ledger: set<Digest>, html: string): (set<Digest>, Option<Parsed>) {
    var text := CleanText(dom.text(html));
    var processed := Process(co, ledger, text);
    match processed.1
    case None => (processed.0, None)
    case Some(p) =>
      (processed.0, Some(Parsed(text, ImagesOf(dom.images(html), baseUrl, dom.urljoin), Metadata(dom.title(html), dom.metas(html)), html, p)))
  }

  /** The record yielded to the uploader for each accepted page. */
  datatype TextRecord = TextRecord(url: string, entities: map<string, seq<string>>, keywords: seq<string>, contentHash: Digest, timestamp: string)

  /** The page record kept in `crawled_data`, after `get_metadata` and without the text-analysis keys. */
  datatype PageRecord = PageRecord(
    text: string, images: seq<Image>, metadata: map<string, Option<string>>, html: string,
    url: string, hash: string, crawler: string, timestamp: string, sourceUrl: string)

  // ---------------------------------------------------------------------------
  // The crawl loop

  /** The crawler's own constants: its name, base URL, page limit and text-processing collaborators. */
  datatype Site = Site(name: string, baseUrl: string, pageLimit: int, co: Collaborators)

  /** The outside world during a crawl: `get_page` results by fetch number, the parser, and the clock by page number. */
  datatype Env = Env(fetch: (nat, string) -> Option<string>, dom: Dom, clock: nat -> string)

  /** Everything the crawl loop changes. */
  datatype CrawlState = CrawlState(
    toVisit: seq<string>,
    visited: set<string>,
    ledger: set<Digest>,
    fetches: nat,
    texts: seq<TextRecord>,
    pages: seq<PageRecord>)

  /** Append, in order, each link neither visited nor already queued. */
  function Enqueue(queue: seq<string>, visited: set<string>, links: seq<string>): (r: seq<string>)
    ensures |queue| <= |r| && r[..|queue|] == queue
    ensures forall x :: x in r <==> x in queue || (x in links && x !in visited)
    ensures NoDups(queue) ==> NoDups(r)
    decreases |links|
  {
    if links == [] then queue
    else
      var q := if links[0] !in visited && links[0] !in queue then queue + [links[0]] else queue;
      assert q[..|queue|] == queue;
      assert forall x :: x in links <==> x == links[0] || x in links[1..];
      var r := Enqueue(q, visited, links[1..]);
      assert r[..|queue|] == r[..|q|][..|queue|];
      r
  }

  /** One iteration of the crawl loop; the frontier is non-empty. */
  function Step(site: Site, env: Env, st: CrawlState): CrawlState
    requires st.toVisit != []
  {
    var url := st.toVisit[0];
    var rest := st.toVisit[1..];
    if url in st.visited then st.(toVisit := rest)
    else
      var html := env.fetch(st.fetches, url);
      var fetched := st.(toVisit := rest, fetches := st.fetches + 1);
      if html.None? || html.value == [] then fetched
      else
        var visited := st.visited + {url};
        var parsed := ParseSpec(site.co, env.dom, site.baseUrl, st.ledger, html.value);
        match parsed.1
        case None => fetched.(visited := visited, ledger := parsed.0)
        case Some(page) =>
          var ts := env.clock(|st.pages|);
          var text := TextRecord(url, page.processed.entities, page.processed.keywords, page.processed.contentHash, ts);
          var record := PageRecord(page.text, page.images, page.metadata, page.html,
                                   url, env.dom.urlHash(url), site.name, ts, site.baseUrl);
          var links := LinksOf(env.dom.hrefs(html.value), url, site.baseUrl, env.dom.urljoin);
          CrawlState(Enqueue(rest, visited, links), visited, parsed.0, st.fetches + 1, st.texts + [text], st.pages + [record])
  }

  /** Each step either visits one more URL or shortens the frontier, and forgets no visited URL. */
  lemma StepProgress(site: Site, env: Env, st: CrawlState)
    requires st.toVisit != []
    ensures var next := Step(site, env, st);
            && st.visited <= next.visited
            && ((|next.visited| == |st.visited| + 1 && next.visited == st.visited + {st.toVisit[0]}) ||
                (next.visited == st.visited && |next.toVisit| < |st.toVisit|))
  {
    var url := st.toVisit[0];
    if url !in st.visited {
      assert |st.visited + {url}| == |st.visited| + 1;
    }
  }

  /** The loop runs while the frontier is non-empty and fewer than `page_limit` URLs are visited. */
  predicate Continues(site: Site, st: CrawlState) {
    st.toVisit != [] && |st.visited| < site.pageLimit
  }

  /** The whole crawl loop. */
  function Run(site: Site, env: Env, st: CrawlState): CrawlState
    decreases site.pageLimit - |st.visited|, |st.toVisit|
  {
    if !Continues(site, st) then st
    else
      StepProgress(site, env, st);
      Run(site, env, Step(site, env, st))
  }

  // ---------------------------------------------------------------------------
  // Lemmas about the crawl

  /**
   * The crawl stops with an empty frontier or at the page limit; it forgets
   * no visited URL and, starting at or below the limit, never passes it.
   */
  lemma {:induction false} RunVisitedBound(site: Site, env: Env, st: CrawlState)
    ensures var r := Run(site, env, st);
            && st.visited <= r.visited
            && !Continues(site, r)
            && (|st.visited| <= site.pageLimit ==> |r.visited| <= site.pageLimit)
    decreases site.pageLimit - |st.visited|, |st.toVisit|
  {
    if Continues(site, st) {
      StepProgress(site, env, st);
      RunVisitedBound(site, env, Step(site, env, st));
    }
  }

  /** The frontier never holds a URL twice. */
  lemma {:induction false} RunQueueNoDups(site: Site, env: Env, st: CrawlState)
    requires NoDups(st.toVisit)
    ensures NoDups(Run(site, env, st).toVisit)
    decreases site.pageLimit - |st.visited|, |st.toVisit|
  {
    if Continues(site, st) {
      StepProgress(site, env, st);
      var rest := st.toVisit[1..];
      assert NoDups(rest) by {
        forall i, j | 0 <= i < j < |rest| ensures rest[i] != rest[j] {
          assert rest[i] == st.toVisit[i + 1] && rest[j] == st.toVisit[j + 1];
        }
      }
      RunQueueNoDups(site, env, Step(site, env, st));
    }
  }

  /** A popped URL that is already visited is dropped without a fetch. */
  lemma StepSkipsVisited(site: Site, env: Env, st: CrawlState)
    requires st.toVisit != [] && st.toVisit[0] in st.visited
    ensures var next := Step(site, env, st);
            next.fetches == st.fetches && next.visited == st.visited && next.toVisit == st.toVisit[1..]
            && next.pages == st.pages && next.texts == st.texts
  {
  }

  /**
   * A URL whose fetch fails (None or empty HTML) is neither marked visited
   * nor put back on the frontier, and produces no record.
   */
  lemma StepFailedFetch(site: Site, env: Env, st: CrawlState)
    requires st.toVisit != [] && NoDups(st.toVisit)
    requires var url := st.toVisit[0];
             url !in st.visited && (env.fetch(st.fetches, url).None? || env.fetch(st.fetches, url).value == [])
    ensures var next := Step(site, env, st);
            && next.visited == st.visited && st.toVisit[0] !in next.toVisit
            && next.fetches == st.fetches + 1 && next.pages == st.pages && next.texts == st.texts
  {
  }

  /**
   * A fetched page whose text is a duplicate is marked visited but yields
   * nothing, records nothing, and none of its links is followed.
   */
  lemma StepDuplicatePage(site: Site, env: Env, st: CrawlState)
    requires st.toVisit != []
    requires var url := st.toVisit[0];
             var html := env.fetch(st.fetches, url);
             url !in st.visited && html.Some? && html.value != [] &&
             ParseSpec(site.co, env.dom, site.baseUrl, st.ledger, html.value).1.None?
    ensures var next := Step(site, env, st);
            && next.visited == st.visited + {st.toVisit[0]}
            && next.toVisit == st.toVisit[1..]
            && next.pages == st.pages && next.texts == st.texts
  {
  }

  /**
   * A duplicate is exactly what the text processor's dedup ledger reports:
   * parsing yields no page iff the page's cleaned text is a duplicate.
   */
  lemma ParseGating(co: Collaborators, dom: Dom, baseUrl: string, ledger: set<Digest>, html: string)
    ensures var text := CleanText(dom.text(html));
            var parsed := ParseSpec(co, dom, baseUrl, ledger, html);
            && (parsed.1.None? <==> Dedup(co.slot, ledger, ContentHash(co, text)).duplicate)
            && parsed.0 == Dedup(co.slot, ledger, ContentHash(co, text)).ledger
            && (parsed.1.Some? ==> parsed.1.value.processed.contentHash == ContentHash(co, text) && parsed.1.value.text == text)
  {
    ProcessGating(co, ledger, CleanText(dom.text(html)));
  }

  /**
   * An accepted page yields one text record and then one page record for
   * its URL, with the same timestamp, and queues its unseen in-site links.
   */
  lemma StepAcceptedPage(site: Site, env: Env, st: CrawlState)
    requires st.toVisit != []
    requires var url := st.toVisit[0];
             var html := env.fetch(st.fetches, url);
             url !in st.visited && html.Some? && html.value != [] &&
             ParseSpec(site.co, env.dom, site.baseUrl, st.ledger, html.value).1.Some?
    ensures var url := st.toVisit[0];
            var html := env.fetch(st.fetches, url).value;
            var next := Step(site, env, st);
            && next.visited == st.visited + {url}
            && |next.texts| == |st.texts| + 1 && next.texts[..|st.texts|] == st.texts
            && |next.pages| == |st.pages| + 1 && next.pages[..|st.pages|] == st.pages
            && next.texts[|st.texts|].url == url && next.pages[|st.pages|].url == url
            && next.texts[|st.texts|].timestamp == next.pages[|st.pages|].timestamp
            && next.toVisit == Enqueue(st.toVisit[1..], st.visited + {url},
                                       LinksOf(env.dom.hrefs(html), url, site.baseUrl, env.dom.urljoin))
  {
    assert (st.texts + [Step(site, env, st).texts[|st.texts|]])[..|st.texts|] == st.texts;
  }

  /** Text records and page records come in pairs, for the same URL and timestamp. */
  predicate RecordsPaired(st: CrawlState) {
    && |st.texts| == |st.pages|
    && forall i :: 0 <= i < |st.texts| ==> st.texts[i].url == st.pages[i].url && st.texts[i].timestamp == st.pages[i].timestamp
  }

  /** The crawl keeps earlier records and pairs every new text record with its page record. */
  lemma {:induction false} RunRecordsPaired(site: Site, env: Env, st: CrawlState)
    requires RecordsPaired(st)
    ensures var r := Run(site, env, st);
            RecordsPaired(r) && |st.pages| <= |r.pages| && r.pages[..|st.pages|] == st.pages
    decreases site.pageLimit - |st.visited|, |st.toVisit|
  {
    if Continues(site, st) {
      StepProgress(site, env, st);
      var next := Step(site, env, st);
      StepPaired(site, env, st);
      RunRecordsPaired(site, env, next);
      var r := Run(site, env, next);
      assert r.pages[..|st.pages|] == r.pages[..|next.pages|][..|st.pages|];
    }
  }

  /** Every page recorded by the crawl is for a URL it newly visited, and no URL is recorded twice. */
  lemma {:induction false} RunNewPages(site: Site, env: Env, st: CrawlState)
    requires RecordsPaired(st)
    ensures var r := Run(site, env, st);
            && |st.pages| <= |r.pages|
            && (forall i :: |st.pages| <= i < |r.pages| ==> r.pages[i].url in r.visited && r.pages[i].url !in st.visited)
            && (forall i, j :: |st.pages| <= i < j < |r.pages| ==> r.pages[i].url != r.pages[j].url)
    decreases site.pageLimit - |st.visited|, |st.toVisit|
  {
    if Continues(site, st) {
      StepProgress(site, env, st);
      var next := Step(site, env, st);
      StepPaired(site, env, st);
      RunNewPages(site, env, next);
      RunRecordsPaired(site, env, next);
      RunVisitedBound(site, env, next);
      var r := Run(site, env, next);
      if |next.pages| > |st.pages| {
        var u := st.toVisit[0];
        assert r.pages[|st.pages|] == r.pages[..|next.pages|][|st.pages|] == next.pages[|st.pages|];
        assert r.pages[|st.pages|].url == u && u in next.visited && u !in st.visited;
      }
    }
  }

  /** One step keeps records paired and either adds nothing or one pair for the popped URL. */
  lemma StepPaired(site: Site, env: Env, st: CrawlState)
    requires st.toVisit != [] && RecordsPaired(st)
    ensures var next := Step(site, env, st);
            && RecordsPaired(next)
            && |st.pages| <= |next.pages| <= |st.pages| + 1 && next.pages[..|st.pages|] == st.pages
            && (|next.pages| > |st.pages| ==>
                  next.pages[|st.pages|].url == st.toVisit[0] && st.toVisit[0] !in st.visited && st.toVisit[0] in next.visited)
            && st.visited <= next.visited
  {
    var url := st.toVisit[0];
    if url !in st.visited {
      var html := env.fetch(st.fetches, url);
      if html.Some? && html.value != [] {
        var parsed := ParseSpec(site.co, env.dom, site.baseUrl, st.ledger, html.value);
        if parsed.1.Some? {
          var next := Step(site, env, st);
          var text := next.texts[|st.texts|];
          var record := next.pages[|st.pages|];
          assert next.texts == st.texts + [text] && next.pages == st.pages + [record];
          assert text.url == url == record.url && text.timestamp == record.timestamp;
          AppendPaired(st.texts, st.pages, text, record);
        }
      }
    }
  }

  /** Appending a text record and a page record for the same URL and time keeps the records paired. */
  lemma AppendPaired(texts: seq<TextRecord>, pages: seq<PageRecord>, text: TextRecord, record: PageRecord)
    requires |texts| == |pages|
    requires forall i :: 0 <= i < |texts| ==> texts[i].url == pages[i].url && texts[i].timestamp == pages[i].timestamp
    requires text.url == record.url && text.timestamp == record.timestamp
    ensures var ts, ps := texts + [text], pages + [record];
            forall i :: 0 <= i < |ts| ==> ts[i].url == ps[i].url && ts[i].timestamp == ps[i].timestamp
  {
  }

  // ---------------------------------------------------------------------------
  // Metrics

  /** The crawler's metrics; `endTime` is None until the crawl is finalised. */
  datatype Metrics = Metrics(startTime: string, endTime: Option<string>, totalPages: int, successfulCrawls: int, failedCrawls: int)

  /** The two documents `_post_crawl_processing` stores. */
  datatype Document =
    | SummaryDoc(filename: string, summary: Metrics)
    | SitemapDoc(filename: string, urls: seq<string>, lastUpdated: string)

  // ---------------------------------------------------------------------------
  // The crawler object

  class StaticCrawler {
    const base: BaseCrawler
    const pageLimit: int
    const processor: TextProcessor
    /** Visited URLs; they persist across crawls of the same crawler. */
    var visitedUrls: set<string>
    var metrics: Metrics

    /** `StaticCrawler.__init__`: the base crawler, `page_limit` defaulting to 100, empty history, zero metrics. */
    constructor (config: SiteConfig, settings: Settings, pick: nat, co: Collaborators, startTime: string)
      ensures fresh(base) && fresh(processor)
      ensures base.name == config.name.GetOr("") && base.baseUrl == config.url.GetOr("")
      ensures base.isDynamic == config.dynamic.GetOr(Bool(false))
      ensures base.settings == settings && base.userAgent == Rotate(settings.userAgents, None, pick) && base.trace == []
      ensures pageLimit == config.pageLimit.GetOr(DefaultPageLimit)
      ensures processor.co == co && processor.contentHashes == {}
      ensures visitedUrls == {}
      ensures metrics == Metrics(startTime, None, 0, 0, 0)
    {
      base := new BaseCrawler(config, settings, pick);
      pageLimit := config.pageLimit.GetOr(DefaultPageLimit);
      processor := new TextProcessor(co);
      visitedUrls := {};
      metrics := Metrics(startTime, None, 0, 0, 0);
    }

    /** The crawler's constants as the crawl functions see them. */
    function SiteOf(): Site {
      Site(base.name, base.baseUrl, pageLimit, processor.co)
    }

    /** `extract_links`: resolve each followable href against the page URL and keep those under the base URL. */
    method ExtractLinks(hrefs: seq<string>, pageUrl: string, join: (string, string) -> string) returns (links: seq<string>)
      ensures links == LinksOf(hrefs, pageUrl, base.baseUrl, join)
    {
      links := [];
      var i := 0;
      while i < |hrefs|
        invariant 0 <= i <= |hrefs|
        invariant links + LinksOf(hrefs[i..], pageUrl, base.baseUrl, join) == LinksOf(hrefs, pageUrl, base.baseUrl, join)
        decreases |hrefs| - i
      {
        var href := hrefs[i];
        assert hrefs[i..][1..] == hrefs[i + 1..];
        if !SkippedHref(href) {
          var absolute := join(pageUrl, href);
          if StartsWith(absolute, base.baseUrl) {
            links := links + [absolute];
          }
        }
        i := i + 1;
      }
      assert hrefs[i..] == [];
    }

    /** `extract_images`: each `<img src>` in document order, resolved against the base URL, `alt` defaulting to "". */
    method ExtractImages(imgs: seq<ImgTag>, join: (string, string) -> string) returns (images: seq<Image>)
      ensures images == ImagesOf(imgs, base.baseUrl, join)
    {
      images := [];
      var i := 0;
      while i < |imgs|
        invariant 0 <= i <= |imgs|
        invariant |images| == i
        invariant forall k :: 0 <= k < i ==> images[k] == Image(join(base.baseUrl, imgs[k].src), imgs[k].alt.GetOr(""))
        decreases |imgs| - i
      {
        var img := imgs[i];
        images := images + [Image(join(base.baseUrl, img.src), img.alt.GetOr(""))];
        i := i + 1;
      }
    }

    /** `extract_metadata`: the title, then each meta tag by `name` or else `property`. */
    method ExtractMetadata(title: Option<Option<string>>, metas: seq<MetaTag>) returns (md: map<string, Option<string>>)
      ensures md == Metadata(title, metas)
    {
      md := map[];
      if title.Some? {
        md := md["title" := title.value];
      }
      var i := 0;
      while i < |metas|
        invariant 0 <= i <= |metas|
        invariant MetaFold(md, metas[i..]) == Metadata(title, metas)
        decreases |metas| - i
      {
        var m := metas[i];
        assert metas[i..][1..] == metas[i + 1..];
        if Present(m.name) && Present(m.content) {
          md := md[m.name.value := m.content];
        } else if Present(m.property) && Present(m.content) {
          md := md[m.property.value := m.content];
        }
        i := i + 1;
      }
      assert metas[i..] == [];
    }

    /** `parse`: extract the page's parts and run the text processor, which may report a duplicate. */
    method Parse(dom: Dom, html: string) returns (page: Option<Parsed>)
      modifies processor`contentHashes
      ensures (processor.contentHashes, page) == ParseSpec(processor.co, dom, base.baseUrl, old(processor.contentHashes), html)
    {
      var text := CleanText(dom.text(html));
      var images := ExtractImages(dom.images(html), dom.urljoin);
      var md := ExtractMetadata(dom.title(html), dom.metas(html));
      var processed := processor.ProcessText(text);
      if processed.None? {
        return None;
      }
      page := Some(Parsed(text, images, md, html, processed.value));
    }

    /** Append each link that is neither visited nor already queued. */
    method EnqueueLinks(queue: seq<string>, links: seq<string>) returns (q: seq<string>)
      ensures q == Enqueue(queue, visitedUrls, links)
    {
      q := queue;
      var i := 0;
      while i < |links|
        invariant 0 <= i <= |links|
        invariant Enqueue(q, visitedUrls, links[i..]) == Enqueue(queue, visitedUrls, links)
        decreases |links| - i
      {
        assert links[i..][1..] == links[i + 1..];
        if links[i] !in visitedUrls && links[i] !in q {
          q := q + [links[i]];
        }
        i := i + 1;
      }
      assert links[i..] == [];
    }

    /**
     * `crawl`'s page generator: pop the frontier's head, skip it if visited,
     * fetch it, mark it visited, parse it, yield its text record, keep its
     * page record and queue its links. Returns the yielded records and
     * `crawled_data`.
     */
    method CrawlPages(env: Env) returns (texts: seq<TextRecord>, pages: seq<PageRecord>, pagesProcessed: nat)
      modifies this`visitedUrls, processor`contentHashes
      ensures var r := Run(SiteOf(), env, CrawlState([base.baseUrl], old(visitedUrls), old(processor.contentHashes), 0, [], []));
              && visitedUrls == r.visited && processor.contentHashes == r.ledger
              && texts == r.texts && pages == r.pages
      ensures pagesProcessed == |pages|
    {
      var toVisit := [base.baseUrl];
      var fetches := 0;
      texts, pages, pagesProcessed := [], [], 0;
      ghost var site := SiteOf();
      ghost var goal := Run(site, env, CrawlState(toVisit, visitedUrls, processor.contentHashes, fetches, texts, pages));
      while toVisit != [] && |visitedUrls| < pageLimit
        invariant Run(site, env, CrawlState(toVisit, visitedUrls, processor.contentHashes, fetches, texts, pages)) == goal
        invariant pagesProcessed == |pages|
        decreases pageLimit - |visitedUrls|, |toVisit|
      {
        ghost var st := CrawlState(toVisit, visitedUrls, processor.contentHashes, fetches, texts, pages);
        StepProgress(site, env, st);
        ghost var next := Step(site, env, st);
        var url := toVisit[0];
        toVisit := toVisit[1..];
        if url in visitedUrls {
          continue;
        }
        var html := env.fetch(fetches, url);
        fetches := fetches + 1;
        if html.None? || html.value == [] {
          continue;
        }
        visitedUrls := visitedUrls + {url};
        var page := Parse(env.dom, html.value);
        if page.None? {
          continue;
        }
        var p := page.value;
        var ts := env.clock(pagesProcessed);
        texts := texts + [TextRecord(url, p.processed.entities, p.processed.keywords, p.processed.contentHash, ts)];
        pages := pages + [PageRecord(p.text, p.images, p.metadata, p.html, url, env.dom.urlHash(url), base.name, ts, base.baseUrl)];
        pagesProcessed := pagesProcessed + 1;
        var links := ExtractLinks(env.dom.hrefs(html.value), url, env.dom.urljoin);
        toVisit := EnqueueLinks(toVisit, links);
        assert CrawlState(toVisit, visitedUrls, processor.contentHashes, fetches, texts, pages) == next;
      }
    }

    /**
     * `_post_crawl_processing`: total and successful pages become the number
     * of visited URLs, failures are kept, and the summary and the sitemap of
     * every visited URL are stored.
     */
    method PostCrawlProcessing(endTime: string, lastUpdated: string) returns (stored: seq<Document>)
      modifies this`metrics
      ensures metrics == old(metrics).(endTime := Some(endTime), totalPages := |visitedUrls|, successfulCrawls := |visitedUrls|)
      ensures |stored| == 2
      ensures stored[0] == SummaryDoc(base.name + "_summary.json", metrics)
      ensures stored[1].SitemapDoc? && stored[1].filename == base.name + "_sitemap.json" && stored[1].lastUpdated == lastUpdated
      ensures forall u :: u in stored[1].urls <==> u in visitedUrls
      ensures NoDups(stored[1].urls) && |stored[1].urls| == |visitedUrls|
    {
      metrics := metrics.(endTime := Some(endTime), totalPages := |visitedUrls|, successfulCrawls := |visitedUrls|);
      var urls := SetToSeq(visitedUrls);
      stored := [SummaryDoc(base.name + "_summary.json", metrics), SitemapDoc(base.name + "_sitemap.json", urls, lastUpdated)];
    }
  }

  /** `list(s)` for a set: its elements once each, in an order the model leaves open. */
  method SetToSeq(s: set<string>) returns (r: seq<string>)
    ensures forall u :: u in r <==> u in s
    ensures NoDups(r) && |r| == |s|
  {
    r := [];
    var left := s;
    while left != {}
      invariant left <= s
      invariant forall u :: u in r <==> u in s && u !in left
      invariant NoDups(r) && |r| + |left| == |s|
      decreases |left|
    {
      var u :| u in left;
      r := r + [u];
      left := left - {u};
    }
  }
}
