/**
 * The crawler for JavaScript-rendered sites: its own `get_page` retry loop,
 * which renders the page in a headless browser and backs off AFTER each
 * failed attempt but the last; the scroll positions of `scroll_page`; and
 * the cookie-banner selector loop of `handle_cookies_popup`.
 *
 * Browser outcomes, the page height and the visibility and click results are
 * oracles; sleeps and page renders are recorded on the base crawler's trace.
 */
module DynamicCrawling {
  import opened Wrappers
  import opened BaseCrawling
  import opened Seqs
  import opened TextProcessing
  import opened StaticCrawling

  /** `wait_time` when the configuration has none, in seconds. */
  const DefaultWaitTime := 5

  /** How far one scroll step moves, in pixels. */
  const ScrollStep := 300

  /**
   * One browser attempt: the rendered HTML, or an exception. `waited` says
   * whether it was raised after the render wait (by `page.content()` or the
   * closing calls) rather than before it (launch, context or navigation).
   */
  datatype Rendering = Rendered(html: string) | RenderFailed(waited: bool)

  /**
   * What attempt `k` records: the page render, the render wait if the
   * attempt got that far, then the politeness delay on success, or a backoff
   * after a failure that is not the last attempt allowed.
   */
  function AttemptEvents(s: Settings, waitTime: int, url: string, k: nat, ua: Option<string>, r: Rendering): seq<Event> {
    match r
    case Rendered(_) => [Render(url, ua), Sleep(waitTime, RenderWait), Sleep(s.delay, Politeness)]
    case RenderFailed(waited) =>
      [Render(url, ua)]
      + (if waited then [Sleep(waitTime, RenderWait)] else [])
      + (if k + 1 < s.maxRetries then [Sleep(s.delay * (k + 1), Backoff)] else [])
  }

  /** Attempts `k`, `k + 1`, ... of `DynamicCrawler.get_page`; the User-Agent is never rotated. */
  function RenderAttempts(s: Settings, waitTime: int, url: string, k: nat, ua: Option<string>,
                          render: nat -> Rendering): FetchRun
    decreases s.maxRetries - k
  {
    if k >= s.maxRetries then FetchRun(None, [], ua)
    else
      var here := AttemptEvents(s, waitTime, url, k, ua, render(k));
      match render(k)
      case Rendered(h) => FetchRun(Some(h), here, ua)
      case RenderFailed(_) =>
        var rest := RenderAttempts(s, waitTime, url, k + 1, ua, render);
        FetchRun(rest.body, here + rest.events, ua)
  }

  /** `DynamicCrawler.get_page`. */
  function RenderPageSpec(s: Settings, waitTime: int, url: string, ua: Option<string>,
                          render: nat -> Rendering): FetchRun
  {
    if !RespectRobotsTxt(url) then FetchRun(None, [], ua)
    else RenderAttempts(s, waitTime, url, 0, ua, render)
  }

  // ---------------------------------------------------------------------------
  // Reference definitions for the lemmas

  /** The first attempt in `[k, n)` that rendered, if any. */
  function FirstRendered(render: nat -> Rendering, k: nat, n: nat): (j: Option<nat>)
    ensures j.Some? ==> k <= j.value < n && render(j.value).Rendered?
    ensures j.Some? ==> forall i :: k <= i < j.value ==> render(i).RenderFailed?
    ensures j.None? ==> forall i :: k <= i < n ==> render(i).RenderFailed?
    decreases n - k
  {
    if k >= n then None
    else if render(k).Rendered? then Some(k)
    else FirstRendered(render, k + 1, n)
  }

  lemma {:induction false} FirstRenderedIs(render: nat -> Rendering, k: nat, n: nat, j: nat)
    requires k <= j < n && render(j).Rendered?
    requires forall i :: k <= i < j ==> render(i).RenderFailed?
    ensures FirstRendered(render, k, n) == Some(j)
    decreases j - k
  {
    if k < j {
      FirstRenderedIs(render, k + 1, n, j);
    }
  }

  /** The User-Agent each render attempt carries, one per attempt, in order (an attempt that fails to launch the browser opens no context). */
  function RenderAgents(events: seq<Event>): seq<Option<string>> {
    if events == [] then []
    else (if events[0].Render? then [events[0].userAgent] else []) + RenderAgents(events[1..])
  }

  lemma {:induction false} RenderAgentsAppend(a: seq<Event>, b: seq<Event>)
    ensures RenderAgents(a + b) == RenderAgents(a) + RenderAgents(b)
  {
    if a == [] {
      assert a + b == b;
    } else {
      assert (a + b)[0] == a[0];
      assert (a + b)[1..] == a[1..] + b;
      RenderAgentsAppend(a[1..], b);
    }
  }

  lemma OneRenderEvent(e: Event, why: Pause)
    ensures RenderAgents([e]) == if e.Render? then [e.userAgent] else []
    ensures SleepsFor([e], why) == if e.Sleep? && e.why == why then [e.seconds] else []
  {
    assert [e][1..] == [];
  }

  /** Each attempt is one render attempt carrying the session's User-Agent. */
  lemma AttemptAgents(s: Settings, waitTime: int, url: string, k: nat, ua: Option<string>, r: Rendering)
    ensures RenderAgents(AttemptEvents(s, waitTime, url, k, ua, r)) == [ua]
  {
    var e0 := Render(url, ua);
    var wait := Sleep(waitTime, RenderWait);
    OneRenderEvent(e0, Backoff);
    OneRenderEvent(wait, Backoff);
    OneRenderEvent(Sleep(s.delay, Politeness), Backoff);
    OneRenderEvent(Sleep(s.delay * (k + 1), Backoff), Backoff);
    match r
    case Rendered(_) =>
      assert AttemptEvents(s, waitTime, url, k, ua, r) == [e0] + ([wait] + [Sleep(s.delay, Politeness)]);
      RenderAgentsAppend([e0], [wait] + [Sleep(s.delay, Politeness)]);
      RenderAgentsAppend([wait], [Sleep(s.delay, Politeness)]);
    case RenderFailed(waited) =>
      var mid := if waited then [wait] else [];
      var back := if k + 1 < s.maxRetries then [Sleep(s.delay * (k + 1), Backoff)] else [];
      RenderAgentsAppend([e0] + mid, back);
      RenderAgentsAppend([e0], mid);
  }

  /** Only a failed attempt that is not the last one allowed backs off, by `delay * (k + 1)`. */
  lemma AttemptBackoff(s: Settings, waitTime: int, url: string, k: nat, ua: Option<string>, r: Rendering)
    ensures SleepsFor(AttemptEvents(s, waitTime, url, k, ua, r), Backoff)
            == if r.RenderFailed? && k + 1 < s.maxRetries then [s.delay * (k + 1)] else []
  {
    var e0 := Render(url, ua);
    var wait := Sleep(waitTime, RenderWait);
    OneRenderEvent(e0, Backoff);
    OneRenderEvent(wait, Backoff);
    OneRenderEvent(Sleep(s.delay, Politeness), Backoff);
    OneRenderEvent(Sleep(s.delay * (k + 1), Backoff), Backoff);
    match r
    case Rendered(_) =>
      assert AttemptEvents(s, waitTime, url, k, ua, r) == [e0] + ([wait] + [Sleep(s.delay, Politeness)]);
      SleepsForAppend([e0], [wait] + [Sleep(s.delay, Politeness)], Backoff);
      SleepsForAppend([wait], [Sleep(s.delay, Politeness)], Backoff);
    case RenderFailed(waited) =>
      var mid := if waited then [wait] else [];
      var back := if k + 1 < s.maxRetries then [Sleep(s.delay * (k + 1), Backoff)] else [];
      SleepsForAppend([e0] + mid, back, Backoff);
      SleepsForAppend([e0], mid, Backoff);
  }

  /** The backoff sleeps `delay * (i + 1)` after each failed attempt `i` in `[k, e)`. */
  function RenderWaits(d: nat, k: nat, e: nat): seq<int>
    decreases e - k
  {
    if k >= e then [] else [d * (k + 1)] + RenderWaits(d, k + 1, e)
  }

  lemma {:induction false} RenderWaitsClosedForm(d: nat, k: nat, e: nat)
    requires k <= e
    ensures RenderWaits(d, k, e) == seq(e - k, i => d * (k + i + 1))
    decreases e - k
  {
    if k < e {
      RenderWaitsClosedForm(d, k + 1, e);
      var tail := seq(e - k - 1, i => d * (k + 1 + i + 1));
      var whole := seq(e - k, i => d * (k + i + 1));
      assert RenderWaits(d, k, e) == [d * (k + 1)] + tail;
      assert whole[1..] == tail by {
        forall i | 0 <= i < e - k - 1 ensures whole[1..][i] == tail[i] {
          assert whole[1..][i] == whole[i + 1] == d * (k + (i + 1) + 1);
        }
      }
      assert whole == [whole[0]] + whole[1..];
    }
  }

  /** The failed attempts from `k` on that are followed by a backoff end here. */
  function BackoffEnd(render: nat -> Rendering, k: nat, n: nat): (e: nat)
    ensures FirstRendered(render, k, n).Some? ==> e == FirstRendered(render, k, n).value
    ensures FirstRendered(render, k, n).None? ==> e == if n > 0 then n - 1 else 0
  {
    match FirstRendered(render, k, n)
    case Some(j) => j
    case None => if n > 0 then n - 1 else 0
  }

  // ---------------------------------------------------------------------------
  // Lemmas

  /** Attempts from `k` on: the first rendered page is returned; None when every attempt failed. */
  lemma {:induction false} RenderAttemptsResult(s: Settings, waitTime: int, url: string, k: nat,
                                                ua: Option<string>, render: nat -> Rendering)
    requires k <= s.maxRetries
    ensures var run := RenderAttempts(s, waitTime, url, k, ua, render);
            match FirstRendered(render, k, s.maxRetries)
            case Some(j) => run.body == Some(render(j).html) && |RenderAgents(run.events)| == j - k + 1
            case None => run.body == None && |RenderAgents(run.events)| == s.maxRetries - k
    decreases s.maxRetries - k
  {
    if k < s.maxRetries {
      AttemptAgents(s, waitTime, url, k, ua, render(k));
      if render(k).RenderFailed? {
        RenderAttemptsResult(s, waitTime, url, k + 1, ua, render);
        FailedAttemptResult(s, waitTime, url, k, ua, render);
      }
    }
  }

  /** A failed attempt adds one render attempt in front of the later attempts and returns what they return. */
  lemma FailedAttemptResult(s: Settings, waitTime: int, url: string, k: nat,
                            ua: Option<string>, render: nat -> Rendering)
    requires k < s.maxRetries && render(k).RenderFailed?
    ensures var run := RenderAttempts(s, waitTime, url, k, ua, render);
            var rest := RenderAttempts(s, waitTime, url, k + 1, ua, render);
            && run.body == rest.body
            && |RenderAgents(run.events)| == 1 + |RenderAgents(rest.events)|
            && FirstRendered(render, k, s.maxRetries) == FirstRendered(render, k + 1, s.maxRetries)
  {
    var here := AttemptEvents(s, waitTime, url, k, ua, render(k));
    var rest := RenderAttempts(s, waitTime, url, k + 1, ua, render);
    assert RenderAttempts(s, waitTime, url, k, ua, render).events == here + rest.events;
    AttemptAgents(s, waitTime, url, k, ua, render(k));
    RenderAgentsAppend(here, rest.events);
  }

  /** Attempts from `k` on: a backoff sleep follows each failed attempt except the last one allowed. */
  lemma {:induction false} RenderAttemptsBackoff(s: Settings, waitTime: int, url: string, k: nat,
                                                 ua: Option<string>, render: nat -> Rendering)
    requires k <= s.maxRetries
    ensures SleepsFor(RenderAttempts(s, waitTime, url, k, ua, render).events, Backoff)
            == RenderWaits(s.delay, k, BackoffEnd(render, k, s.maxRetries))
    decreases s.maxRetries - k
  {
    if k < s.maxRetries {
      AttemptBackoff(s, waitTime, url, k, ua, render(k));
      if render(k).Rendered? {
        assert BackoffEnd(render, k, s.maxRetries) == k;
      } else {
        RenderAttemptsBackoff(s, waitTime, url, k + 1, ua, render);
        FailedAttemptBackoff(s, waitTime, url, k, ua, render);
      }
    }
  }

  /** A failed attempt `k` puts its own backoff in front of the later attempts' backoffs. */
  lemma FailedAttemptBackoff(s: Settings, waitTime: int, url: string, k: nat,
                             ua: Option<string>, render: nat -> Rendering)
    requires k < s.maxRetries && render(k).RenderFailed?
    requires SleepsFor(RenderAttempts(s, waitTime, url, k + 1, ua, render).events, Backoff)
             == RenderWaits(s.delay, k + 1, BackoffEnd(render, k + 1, s.maxRetries))
    requires SleepsFor(AttemptEvents(s, waitTime, url, k, ua, render(k)), Backoff)
             == if k + 1 < s.maxRetries then [s.delay * (k + 1)] else []
    ensures SleepsFor(RenderAttempts(s, waitTime, url, k, ua, render).events, Backoff)
            == RenderWaits(s.delay, k, BackoffEnd(render, k, s.maxRetries))
  {
    var here := AttemptEvents(s, waitTime, url, k, ua, render(k));
    var rest := RenderAttempts(s, waitTime, url, k + 1, ua, render);
    assert RenderAttempts(s, waitTime, url, k, ua, render).events == here + rest.events;
    SleepsForAppend(here, rest.events, Backoff);
    var stop := BackoffEnd(render, k + 1, s.maxRetries);
    assert BackoffEnd(render, k, s.maxRetries) == stop;
    if k + 1 < s.maxRetries {
      assert RenderWaits(s.delay, k, stop) == [s.delay * (k + 1)] + RenderWaits(s.delay, k + 1, stop);
    } else {
      assert rest.events == [];
    }
  }

  /** Attempts from `k` on: every render attempt carries the session's User-Agent `ua`. */
  lemma {:induction false} RenderAttemptsAgents(s: Settings, waitTime: int, url: string, k: nat,
                                                ua: Option<string>, render: nat -> Rendering)
    ensures forall x :: x in RenderAgents(RenderAttempts(s, waitTime, url, k, ua, render).events) ==> x == ua
    decreases s.maxRetries - k
  {
    if k < s.maxRetries {
      AttemptAgents(s, waitTime, url, k, ua, render(k));
      if render(k).RenderFailed? {
        var rest := RenderAttempts(s, waitTime, url, k + 1, ua, render);
        RenderAttemptsAgents(s, waitTime, url, k + 1, ua, render);
        var here := AttemptEvents(s, waitTime, url, k, ua, render(k));
        RenderAgentsAppend(here, rest.events);
        var a, b := RenderAgents(here), RenderAgents(rest.events);
        forall x | x in a + b ensures x == ua {
          assert x in a || x in b;
        }
      }
    }
  }

  /** Attempts from `k` on: a success ends with the render wait and then the politeness delay. */
  lemma {:induction false} RenderAttemptsSuccessTail(s: Settings, waitTime: int, url: string, k: nat,
                                                     ua: Option<string>, render: nat -> Rendering)
    ensures var run := RenderAttempts(s, waitTime, url, k, ua, render);
            run.body.Some? ==>
              |run.events| >= 3 &&
              run.events[|run.events| - 2..] == [Sleep(waitTime, RenderWait), Sleep(s.delay, Politeness)]
    decreases s.maxRetries - k
  {
    if k < s.maxRetries && render(k).RenderFailed? {
      RenderAttemptsSuccessTail(s, waitTime, url, k + 1, ua, render);
      var here := AttemptEvents(s, waitTime, url, k, ua, render(k));
      var rest := RenderAttempts(s, waitTime, url, k + 1, ua, render);
      if rest.body.Some? {
        assert (here + rest.events)[|here + rest.events| - 2..] == rest.events[|rest.events| - 2..];
      }
    }
  }

  /**
   * `DynamicCrawler.get_page` makes at most `max_retries` attempts, returns
   * the first rendered page and None exactly when every attempt failed.
   */
  lemma RenderPageOutcome(s: Settings, waitTime: int, url: string, ua: Option<string>, render: nat -> Rendering)
    ensures var run := RenderPageSpec(s, waitTime, url, ua, render);
            && |RenderAgents(run.events)| <= s.maxRetries
            && (run.body.None? <==> forall i :: 0 <= i < s.maxRetries ==> render(i).RenderFailed?)
            && (run.body.Some? ==> exists j :: 0 <= j < s.maxRetries && render(j) == Rendered(run.body.value))
  {
    RenderAttemptsResult(s, waitTime, url, 0, ua, render);
    var first := FirstRendered(render, 0, s.maxRetries);
    if first.Some? {
      assert render(first.value).Rendered?;
    }
  }

  /**
   * When attempt `j` is the first to render, the backoff sleeps are
   * delay, 2·delay, ..., j·delay: one after each failed attempt.
   */
  lemma RenderPageSuccessBackoff(s: Settings, waitTime: int, url: string, ua: Option<string>,
                                 render: nat -> Rendering, j: nat)
    requires j < s.maxRetries && render(j).Rendered?
    requires forall i :: 0 <= i < j ==> render(i).RenderFailed?
    ensures var run := RenderPageSpec(s, waitTime, url, ua, render);
            && run.body == Some(render(j).html)
            && SleepsFor(run.events, Backoff) == seq(j, i => s.delay * (i + 1))
  {
    RenderAttemptsResult(s, waitTime, url, 0, ua, render);
    RenderAttemptsBackoff(s, waitTime, url, 0, ua, render);
    FirstRenderedIs(render, 0, s.maxRetries, j);
    RenderWaitsClosedForm(s.delay, 0, j);
  }

  /**
   * When every attempt fails, a backoff follows each failure but the last:
   * delay, 2·delay, ..., (max_retries - 1)·delay.
   */
  lemma RenderPageFailureBackoff(s: Settings, waitTime: int, url: string, ua: Option<string>, render: nat -> Rendering)
    requires s.maxRetries > 0
    requires forall i :: 0 <= i < s.maxRetries ==> render(i).RenderFailed?
    ensures var run := RenderPageSpec(s, waitTime, url, ua, render);
            && run.body == None
            && SleepsFor(run.events, Backoff) == seq(s.maxRetries - 1, i => s.delay * (i + 1))
  {
    RenderAttemptsResult(s, waitTime, url, 0, ua, render);
    RenderAttemptsBackoff(s, waitTime, url, 0, ua, render);
    assert FirstRendered(render, 0, s.maxRetries) == None;
    RenderWaitsClosedForm(s.delay, 0, s.maxRetries - 1);
  }

  /** The outcome of `page.is_visible` on a selector. */
  datatype Visibility = Visible | Hidden | VisibilityRaised

  /** The cookie-consent selectors of `handle_cookies_popup`, in the order they are tried. */
  const CookieSelectors: seq<string> := [
    "button[id*='accept']",
    "button[id*='cookie']",
    "button[class*='accept']",
    "button[class*='cookie']",
    "a[id*='accept']",
    "a[class*='accept']",
    "div[id*='accept']",
    "div[class*='accept']",
    "[aria-label*='accept cookies']",
    "[aria-label*='accept all']"
  ]

  /** A selector whose banner is visible and whose click does not raise ends the loop. */
  predicate Accepts(sel: string, visible: string -> Visibility, clickOk: string -> bool) {
    visible(sel) == Visible && clickOk(sel)
  }

  /** The selectors clicked, in order: every visible one, up to the first accepted click. */
  function CookieClicks(sels: seq<string>, visible: string -> Visibility, clickOk: string -> bool): seq<string> {
    if sels == [] then []
    else if visible(sels[0]) != Visible then CookieClicks(sels[1..], visible, clickOk)
    else if clickOk(sels[0]) then [sels[0]]
    else [sels[0]] + CookieClicks(sels[1..], visible, clickOk)
  }

  /** The selector whose click was accepted, if any: the first that is visible and clickable. */
  lemma {:induction false} CookieClicksFirst(sels: seq<string>, visible: string -> Visibility, clickOk: string -> bool)
    ensures var clicks := CookieClicks(sels, visible, clickOk);
            && (forall i :: 0 <= i < |clicks| ==> clicks[i] in sels && visible(clicks[i]) == Visible)
            && (forall i :: 0 <= i < |clicks| - 1 ==> !clickOk(clicks[i]))
            && ((exists i :: 0 <= i < |sels| && Accepts(sels[i], visible, clickOk)) <==>
                  clicks != [] && clickOk(clicks[|clicks| - 1]))
  {
    if sels != [] {
      CookieClicksFirst(sels[1..], visible, clickOk);
      var rest := CookieClicks(sels[1..], visible, clickOk);
      var clicks := CookieClicks(sels, visible, clickOk);
      forall i | 0 <= i < |rest| ensures rest[i] in sels {
        assert rest[i] in sels[1..];
      }
      if exists i :: 0 <= i < |sels| && Accepts(sels[i], visible, clickOk) {
        var i :| 0 <= i < |sels| && Accepts(sels[i], visible, clickOk);
        if i > 0 && !Accepts(sels[0], visible, clickOk) {
          assert Accepts(sels[1..][i - 1], visible, clickOk);
        }
      }
      if (exists i :: 0 <= i < |sels[1..]| && Accepts(sels[1..][i], visible, clickOk)) {
        var i :| 0 <= i < |sels[1..]| && Accepts(sels[1..][i], visible, clickOk);
        assert Accepts(sels[i + 1], visible, clickOk);
      }
    }
  }

  /** The visible selectors among `sels`, in order. */
  function VisibleOf(sels: seq<string>, visible: string -> Visibility): (r: seq<string>)
    ensures forall x :: x in r <==> x in sels && visible(x) == Visible
  {
    if sels == [] then []
    else
      var rest := VisibleOf(sels[1..], visible);
      assert forall x :: x in sels <==> x == sels[0] || x in sels[1..];
      if visible(sels[0]) == Visible then [sels[0]] + rest else rest
  }

  /** Filtering keeps order: the visible selectors of a concatenation are those of each part, in turn. */
  lemma {:induction false} VisibleOfAppend(a: seq<string>, b: seq<string>, visible: string -> Visibility)
    ensures VisibleOf(a + b, visible) == VisibleOf(a, visible) + VisibleOf(b, visible)
  {
    if a == [] {
      assert a + b == b;
    } else {
      VisibleOfAppend(a[1..], b, visible);
      assert (a + b)[1..] == a[1..] + b;
      assert (a + b)[0] == a[0];
    }
  }

  /** One selector is kept iff it is visible. */
  lemma VisibleOfOne(x: string, visible: string -> Visibility)
    ensures VisibleOf([x], visible) == if visible(x) == Visible then [x] else []
  {
    assert [x][1..] == [];
  }

  /**
   * When `sels[k]` is the first selector that is visible and whose click goes through, the
   * clicks are every visible selector before it, in order, and then `sels[k]`; the loop stops there.
   */
  lemma {:induction false} CookieClicksAt(sels: seq<string>, visible: string -> Visibility, clickOk: string -> bool, k: nat)
    requires k < |sels| && Accepts(sels[k], visible, clickOk)
    requires forall j :: 0 <= j < k ==> !Accepts(sels[j], visible, clickOk)
    ensures CookieClicks(sels, visible, clickOk) == VisibleOf(sels[..k], visible) + [sels[k]]
  {
    if k > 0 {
      var tail := sels[1..];
      forall j | 0 <= j < k - 1 ensures !Accepts(tail[j], visible, clickOk) {
        assert tail[j] == sels[j + 1];
      }
      assert tail[k - 1] == sels[k];
      CookieClicksAt(tail, visible, clickOk, k - 1);
      assert sels[..k][1..] == tail[..k - 1];
    }
  }

  /** When no selector is visible with a click that goes through, every visible selector is clicked, in order. */
  lemma {:induction false} CookieClicksNone(sels: seq<string>, visible: string -> Visibility, clickOk: string -> bool)
    requires forall j :: 0 <= j < |sels| ==> !Accepts(sels[j], visible, clickOk)
    ensures CookieClicks(sels, visible, clickOk) == VisibleOf(sels, visible)
  {
    if sels != [] {
      var tail := sels[1..];
      forall j | 0 <= j < |tail| ensures !Accepts(tail[j], visible, clickOk) {
        assert tail[j] == sels[j + 1];
      }
      CookieClicksNone(tail, visible, clickOk);
    }
  }

  // ---------------------------------------------------------------------------
  // The crawler object

  /** A `DynamicCrawler` is a static crawler whose pages are rendered in a browser. */
  class DynamicCrawler {
    const crawler: StaticCrawler
    const waitTime: int

    /** `DynamicCrawler.__init__`: the static crawler's defaults and `wait_time` defaulting to 5. */
    constructor (config: SiteConfig, settings: Settings, pick: nat, co: Collaborators, startTime: string)
      ensures fresh(crawler) && fresh(crawler.base) && fresh(crawler.processor)
      ensures crawler.base.name == config.name.GetOr("") && crawler.base.baseUrl == config.url.GetOr("")
      ensures crawler.base.settings == settings && crawler.base.userAgent == Rotate(settings.userAgents, None, pick)
      ensures crawler.base.trace == []
      ensures crawler.pageLimit == config.pageLimit.GetOr(DefaultPageLimit)
      ensures crawler.visitedUrls == {} && crawler.metrics == Metrics(startTime, None, 0, 0, 0)
      ensures waitTime == config.waitTime.GetOr(DefaultWaitTime)
    {
      crawler := new StaticCrawler(config, settings, pick, co, startTime);
      waitTime := config.waitTime.GetOr(DefaultWaitTime);
    }

    /** `get_page`: up to `max_retries` browser attempts with the session's User-Agent. */
    method GetPage(url: string, render: nat -> Rendering) returns (html: Option<string>)
      modifies crawler.base`trace
      ensures var run := RenderPageSpec(crawler.base.settings, waitTime, url, crawler.base.userAgent, render);
              html == run.body && crawler.base.trace == old(crawler.base.trace) + run.events
    {
      if !RespectRobotsTxt(url) {
        return None;
      }
      var s := crawler.base.settings;
      var ua := crawler.base.userAgent;
      ghost var all := RenderAttempts(s, waitTime, url, 0, ua, render);
      var attempt := 0;
      while attempt < s.maxRetries
        invariant 0 <= attempt <= s.maxRetries
        invariant var rest := RenderAttempts(s, waitTime, url, attempt, ua, render);
                  all.body == rest.body && old(crawler.base.trace) + all.events == crawler.base.trace + rest.events
        decreases s.maxRetries - attempt
      {
        ghost var before := crawler.base.trace;
        ghost var rest := RenderAttempts(s, waitTime, url, attempt, ua, render);
        ghost var here := AttemptEvents(s, waitTime, url, attempt, ua, render(attempt));
        crawler.base.trace := crawler.base.trace + [Render(url, ua)];
        match render(attempt)
        case Rendered(h) =>
          crawler.base.trace := crawler.base.trace + [Sleep(waitTime, RenderWait)];
          crawler.base.trace := crawler.base.trace + [Sleep(s.delay, Politeness)];
          assert crawler.base.trace == before + here;
          return Some(h);
        case RenderFailed(waited) =>
          if waited {
            crawler.base.trace := crawler.base.trace + [Sleep(waitTime, RenderWait)];
          }
          if attempt < s.maxRetries - 1 {
            crawler.base.trace := crawler.base.trace + [Sleep(s.delay * (attempt + 1), Backoff)];
          }
          assert crawler.base.trace == before + here;
          ghost var next := RenderAttempts(s, waitTime, url, attempt + 1, ua, render);
          assert rest.events == here + next.events;
          ConcatAssoc(before, here, next.events);
          attempt := attempt + 1;
      }
      return None;
    }

    /**
     * `scroll_page`: every multiple of 300 below the page height, upwards, then
     * back to the top. The page height is read from the page.
     */
    method ScrollPage(height: int) returns (positions: seq<int>)
      ensures |positions| >= 1 && positions[|positions| - 1] == 0
      ensures forall i :: 0 <= i < |positions| - 1 ==> positions[i] == ScrollStep * i && 0 <= positions[i] < height
      ensures forall y :: 0 <= y < height && y % ScrollStep == 0 ==> y in positions[..|positions| - 1]
    {
      positions := [];
      var y := 0;
      while y < height
        invariant y >= 0 && y % ScrollStep == 0 && |positions| == y / ScrollStep
        invariant y > 0 ==> y - ScrollStep < height
        invariant forall i :: 0 <= i < |positions| ==> positions[i] == ScrollStep * i && positions[i] < height
        decreases height - y
      {
        positions := positions + [y];
        y := y + ScrollStep;
      }
      forall m | 0 <= m < height && m % ScrollStep == 0 ensures m in positions {
        assert positions[m / ScrollStep] == m;
      }
      positions := positions + [0];
    }

    /**
     * `handle_cookies_popup`: tries the selectors in order, clicking each
     * visible one until a click goes through; a raising check or click only
     * moves on to the next selector.
     */
    method HandleCookiesPopup(visible: string -> Visibility, clickOk: string -> bool) returns (clicks: seq<string>)
      ensures clicks == CookieClicks(CookieSelectors, visible, clickOk)
    {
      clicks := TrySelectors(CookieSelectors, visible, clickOk);
    }

    /** The selector loop of `handle_cookies_popup`, over any list of selectors. */
    method TrySelectors(sels: seq<string>, visible: string -> Visibility, clickOk: string -> bool)
      returns (clicks: seq<string>)
      ensures clicks == CookieClicks(sels, visible, clickOk)
    {
      clicks := [];
      var i := 0;
      assert sels[0..] == sels;
      while i < |sels|
        invariant 0 <= i <= |sels|
        invariant clicks + CookieClicks(sels[i..], visible, clickOk) == CookieClicks(sels, visible, clickOk)
        decreases |sels| - i
      {
        var sel := sels[i];
        assert sels[i..][1..] == sels[i + 1..];
        if visible(sel) == Visible {
          clicks := clicks + [sel];
          if clickOk(sel) {
            return;
          }
        }
        i := i + 1;
      }
      assert sels[i..] == [];
    }
  }
}
