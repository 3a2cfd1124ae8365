/**
 * What every crawler shares: its configuration with defaults, the session's
 * User-Agent rotation, the robots.txt stub, the `get_page` retry loop with
 * its backoff schedule, and the metadata merge.
 *
 * Network responses and `random.choice` draws are oracles indexed by the
 * attempt number; sleeps and requests are recorded as events on a trace.
 */
module BaseCrawling {
  import opened Wrappers

  /** A configuration value, as far as the crawlers inspect it. */
  datatype Value = Null | Bool(b: bool) | Int(i: int) | Str(s: string)

  /** Python truthiness of a configuration value. */
  predicate Truthy(v: Value) {
    match v
    case Null => false
    case Bool(b) => b
    case Int(i) => i != 0
    case Str(s) => s != []
  }

  /** One entry of the website configuration; `None` stands for a missing key. */
  datatype SiteConfig = SiteConfig(
    name: Option<string>,
    url: Option<string>,
    dynamic: Option<Value>,
    pageLimit: Option<int>,
    waitTime: Option<int>)

  /** The crawler settings taken from the configuration module (`USER_AGENTS`, `REQUEST_DELAY`, `MAX_RETRIES`). */
  datatype Settings = Settings(userAgents: seq<string>, delay: nat, maxRetries: nat)

  /** Why the crawler slept. */
  datatype Pause = Backoff | Politeness | RenderWait

  /** What the crawler does to the outside world, in order. Sleeps are in seconds. */
  datatype Event =
    | Sleep(seconds: int, why: Pause)
    | Request(url: string, userAgent: Option<string>)
    | Render(url: string, userAgent: Option<string>)

  /** The outcome of one `session.get` plus `raise_for_status`. */
  datatype Response = Served(text: string) | RequestFailed

  /** What one `get_page` call returns, records, and leaves as the session's User-Agent. */
  datatype FetchRun = FetchRun(body: Option<string>, events: seq<Event>, userAgent: Option<string>)

  /** `_rotate_user_agent`: a random member of the pool, or the header untouched when the pool is empty. */
  function Rotate(pool: seq<string>, current: Option<string>, pick: nat): (ua: Option<string>)
    ensures pool == [] ==> ua == current
    ensures pool != [] ==> ua.Some? && ua.value in pool
  {
    if pool == [] then current else Some(pool[pick % |pool|])
  }

  /** `_respect_robots_txt`: a stub that allows every URL. */
  function RespectRobotsTxt(url: string): (allowed: bool)
    ensures allowed
  {
    true
  }

  /** Attempts `k`, `k + 1`, ... of `BaseCrawler.get_page`. */
  function StaticAttempts(s: Settings, url: string, k: nat, ua: Option<string>,
                          net: nat -> Response, picks: nat -> nat): FetchRun
    decreases s.maxRetries - k
  {
    if k >= s.maxRetries then FetchRun(None, [], ua)
    else
      var ua' := Rotate(s.userAgents, ua, picks(k));
      var wait := if k > 0 then [Sleep(s.delay * (k + 1), Backoff)] else [];
      match net(k)
      case Served(t) => FetchRun(Some(t), wait + ([Request(url, ua')] + [Sleep(s.delay, Politeness)]), ua')
      case RequestFailed =>
        var rest := StaticAttempts(s, url, k + 1, ua', net, picks);
        FetchRun(rest.body, wait + [Request(url, ua')] + rest.events, rest.userAgent)
  }

  /** `BaseCrawler.get_page`. */
  function GetPageSpec(s: Settings, url: string, ua: Option<string>,
                       net: nat -> Response, picks: nat -> nat): FetchRun
  {
    if !RespectRobotsTxt(url) then FetchRun(None, [], ua)
    else StaticAttempts(s, url, 0, ua, net, picks)
  }

  // ---------------------------------------------------------------------------
  // Reference definitions for the lemmas

  /** The first attempt in `[k, n)` that is served, if any. */
  function FirstServed(net: nat -> Response, k: nat, n: nat): (j: Option<nat>)
    ensures j.Some? ==> k <= j.value < n && net(j.value).Served?
    ensures j.Some? ==> forall i :: k <= i < j.value ==> net(i).RequestFailed?
    ensures j.None? ==> forall i :: k <= i < n ==> net(i).RequestFailed?
    decreases n - k
  {
    if k >= n then None
    else if net(k).Served? then Some(k)
    else FirstServed(net, k + 1, n)
  }

  function RequestCount(events: seq<Event>): nat {
    if events == [] then 0 else (if events[0].Request? then 1 else 0) + RequestCount(events[1..])
  }

  /** The durations of the sleeps taken for reason `why`, in order. */
  function SleepsFor(events: seq<Event>, why: Pause): seq<int> {
    if events == [] then [] else SleepOf(events[0], why) + SleepsFor(events[1..], why)
  }

  /** The duration of `e` when it is a sleep for reason `why`. */
  function SleepOf(e: Event, why: Pause): seq<int> {
    if e.Sleep? && e.why == why then [e.seconds] else []
  }

  /** The User-Agents the requests were sent with, in order. */
  function RequestAgents(events: seq<Event>): seq<Option<string>> {
    if events == [] then []
    else (if events[0].Request? then [events[0].userAgent] else []) + RequestAgents(events[1..])
  }

  lemma {:induction false} RequestCountAppend(a: seq<Event>, b: seq<Event>)
    ensures RequestCount(a + b) == RequestCount(a) + RequestCount(b)
  {
    if a == [] {
      assert a + b == b;
    } else {
      assert (a + b)[0] == a[0];
      assert (a + b)[1..] == a[1..] + b;
      RequestCountAppend(a[1..], b);
    }
  }

  lemma {:induction false} SleepsForAppend(a: seq<Event>, b: seq<Event>, why: Pause)
    ensures SleepsFor(a + b, why) == SleepsFor(a, why) + SleepsFor(b, why)
  {
    if a == [] {
      assert a + b == b;
    } else {
      assert (a + b)[0] == a[0];
      assert (a + b)[1..] == a[1..] + b;
      SleepsForAppend(a[1..], b, why);
    }
  }

  lemma {:induction false} RequestAgentsAppend(a: seq<Event>, b: seq<Event>)
    ensures RequestAgents(a + b) == RequestAgents(a) + RequestAgents(b)
  {
    if a == [] {
      assert a + b == b;
    } else {
      assert (a + b)[0] == a[0];
      assert (a + b)[1..] == a[1..] + b;
      RequestAgentsAppend(a[1..], b);
    }
  }

  lemma OneEvent(e: Event, why: Pause)
    ensures RequestCount([e]) == if e.Request? then 1 else 0
    ensures SleepsFor([e], why) == if e.Sleep? && e.why == why then [e.seconds] else []
    ensures RequestAgents([e]) == if e.Request? then [e.userAgent] else []
  {
    assert [e][1..] == [];
  }

  /** The backoff sleeps `delay * (i + 1)` before each attempt `i` in `[k, n)` with `i > 0`. */
  function StaticWaits(d: nat, k: nat, n: nat): seq<int>
    decreases n - k
  {
    if k >= n then [] else (if k > 0 then [d * (k + 1)] else []) + StaticWaits(d, k + 1, n)
  }

  lemma {:induction false} StaticWaitsFrom(d: nat, k: nat, n: nat)
    requires 0 < k <= n
    ensures StaticWaits(d, k, n) == seq(n - k, i => d * (k + i + 1))
    decreases n - k
  {
    if k < n {
      StaticWaitsFrom(d, k + 1, n);
      var tail := seq(n - k - 1, i => d * (k + 1 + i + 1));
      var whole := seq(n - k, i => d * (k + i + 1));
      assert StaticWaits(d, k, n) == [d * (k + 1)] + tail;
      assert whole[0] == d * (k + 1);
      assert whole[1..] == tail by {
        forall i | 0 <= i < n - k - 1 ensures whole[1..][i] == tail[i] {
          assert whole[1..][i] == whole[i + 1] == d * (k + (i + 1) + 1);
        }
      }
      assert whole == [whole[0]] + whole[1..];
    }
  }

  /** From the first attempt on, the backoff sleeps are 2·delay, 3·delay, ... : none before the first attempt. */
  lemma StaticWaitsClosedForm(d: nat, n: nat)
    requires n > 0
    ensures StaticWaits(d, 0, n) == seq(n - 1, i => d * (i + 2))
  {
    StaticWaitsFrom(d, 1, n);
  }

  // ---------------------------------------------------------------------------
  // Lemmas

  /**
   * Attempts from `k` on: the body of the first served attempt is returned
   * after `j - k + 1` requests; with no served attempt, None after
   * `maxRetries - k` requests.
   */
  lemma {:induction false} StaticAttemptsResult(s: Settings, url: string, k: nat, ua: Option<string>,
                                                net: nat -> Response, picks: nat -> nat)
    requires k <= s.maxRetries
    ensures var run := StaticAttempts(s, url, k, ua, net, picks);
            match FirstServed(net, k, s.maxRetries)
            case Some(j) => run.body == Some(net(j).text) && RequestCount(run.events) == j - k + 1
            case None => run.body == None && RequestCount(run.events) == s.maxRetries - k
    decreases s.maxRetries - k
  {
    if k < s.maxRetries {
      AttemptRequests(s, url, k, ua, net, picks);
      if net(k).RequestFailed? {
        StaticAttemptsResult(s, url, k + 1, Rotate(s.userAgents, ua, picks(k)), net, picks);
      }
    }
  }

  /** One past the last attempt made from `k` on: the first served attempt, or all of them. */
  function AttemptsEnd(net: nat -> Response, k: nat, n: nat): (e: nat)
    ensures FirstServed(net, k, n).Some? ==> e == FirstServed(net, k, n).value + 1
    ensures FirstServed(net, k, n).None? ==> e == n
  {
    match FirstServed(net, k, n)
    case Some(j) => j + 1
    case None => n
  }

  /**
   * Attempts from `k` on: a backoff sleep precedes each attempt after the
   * first, up to the last attempt made.
   */
  lemma {:induction false} StaticAttemptsBackoff(s: Settings, url: string, k: nat, ua: Option<string>,
                                                 net: nat -> Response, picks: nat -> nat)
    requires k <= s.maxRetries
    ensures SleepsFor(StaticAttempts(s, url, k, ua, net, picks).events, Backoff)
            == StaticWaits(s.delay, k, AttemptsEnd(net, k, s.maxRetries))
    decreases s.maxRetries - k
  {
    if k < s.maxRetries {
      var w := if k > 0 then [s.delay * (k + 1)] else [];
      AttemptSleeps(s, url, k, ua, net, picks, Backoff);
      if net(k).Served? {
        assert AttemptsEnd(net, k, s.maxRetries) == k + 1;
        assert StaticWaits(s.delay, k + 1, k + 1) == [];
        assert StaticWaits(s.delay, k, k + 1) == w;
      } else {
        StaticAttemptsBackoff(s, url, k + 1, Rotate(s.userAgents, ua, picks(k)), net, picks);
        var stop := AttemptsEnd(net, k + 1, s.maxRetries);
        assert AttemptsEnd(net, k, s.maxRetries) == stop;
        assert StaticWaits(s.delay, k, stop) == w + StaticWaits(s.delay, k + 1, stop);
      }
    }
  }

  /** Attempts from `k` on: one politeness sleep of `delay`, after a success only. */
  lemma {:induction false} StaticAttemptsPoliteness(s: Settings, url: string, k: nat, ua: Option<string>,
                                                    net: nat -> Response, picks: nat -> nat)
    requires k <= s.maxRetries
    ensures var run := StaticAttempts(s, url, k, ua, net, picks);
            SleepsFor(run.events, Politeness) == if run.body.Some? then [s.delay] else []
    decreases s.maxRetries - k
  {
    if k < s.maxRetries {
      StaticAttemptsStep(s, url, k, ua, net, picks);
      AttemptSleeps(s, url, k, ua, net, picks, Politeness);
      if net(k).RequestFailed? {
        StaticAttemptsPoliteness(s, url, k + 1, Rotate(s.userAgents, ua, picks(k)), net, picks);
      }
    }
  }

  /** The events of attempt `k`: its wait, its request, then the politeness sleep or the later attempts. */
  lemma StaticAttemptEvents(s: Settings, url: string, k: nat, ua: Option<string>,
                      net: nat -> Response, picks: nat -> nat)
    requires k < s.maxRetries
    ensures var ua' := Rotate(s.userAgents, ua, picks(k));
            var wait := if k > 0 then [Sleep(s.delay * (k + 1), Backoff)] else [];
            var more := if net(k).Served? then [Sleep(s.delay, Politeness)]
                        else StaticAttempts(s, url, k + 1, ua', net, picks).events;
            StaticAttempts(s, url, k, ua, net, picks).events == wait + [Request(url, ua')] + more
  {
    StaticAttemptsStep(s, url, k, ua, net, picks);
  }

  /** The requests of attempt `k` and after: one, then those of the later attempts; and the body returned. */
  lemma AttemptRequests(s: Settings, url: string, k: nat, ua: Option<string>,
                        net: nat -> Response, picks: nat -> nat)
    requires k < s.maxRetries
    ensures var run := StaticAttempts(s, url, k, ua, net, picks);
            var next := StaticAttempts(s, url, k + 1, Rotate(s.userAgents, ua, picks(k)), net, picks);
            && RequestCount(run.events) == 1 + (if net(k).Served? then 0 else RequestCount(next.events))
            && run.body == (if net(k).Served? then Some(net(k).text) else next.body)
  {
    var ua' := Rotate(s.userAgents, ua, picks(k));
    var wait := if k > 0 then [Sleep(s.delay * (k + 1), Backoff)] else [];
    var req := [Request(url, ua')];
    var more := if net(k).Served? then [Sleep(s.delay, Politeness)]
                else StaticAttempts(s, url, k + 1, ua', net, picks).events;
    StaticAttemptsStep(s, url, k, ua, net, picks);
    StaticAttemptEvents(s, url, k, ua, net, picks);
    if net(k).Served? {
      OneEvent(more[0], Backoff);
    }
    OneEvent(req[0], Backoff);
    if k > 0 {
      OneEvent(wait[0], Backoff);
    }
    RequestCountAppend(wait + req, more);
    RequestCountAppend(wait, req);
  }

  /** The sleeps for `why` of attempt `k` and after: its own, then those of the later attempts. */
  lemma AttemptSleeps(s: Settings, url: string, k: nat, ua: Option<string>,
                      net: nat -> Response, picks: nat -> nat, why: Pause)
    requires k < s.maxRetries
    ensures var run := StaticAttempts(s, url, k, ua, net, picks);
            var next := StaticAttempts(s, url, k + 1, Rotate(s.userAgents, ua, picks(k)), net, picks);
            var w := if k > 0 && why == Backoff then [s.delay * (k + 1)] else [];
            SleepsFor(run.events, why)
            == w + (if net(k).Served? then (if why == Politeness then [s.delay] else [])
                    else SleepsFor(next.events, why))
  {
    var ua' := Rotate(s.userAgents, ua, picks(k));
    var wait := if k > 0 then [Sleep(s.delay * (k + 1), Backoff)] else [];
    var req := [Request(url, ua')];
    var more := if net(k).Served? then [Sleep(s.delay, Politeness)]
                else StaticAttempts(s, url, k + 1, ua', net, picks).events;
    StaticAttemptEvents(s, url, k, ua, net, picks);
    if net(k).Served? {
      OneEvent(more[0], why);
    }
    OneEvent(req[0], why);
    if k > 0 {
      OneEvent(wait[0], why);
    }
    SleepsForAppend(wait + req, more, why);
    SleepsForAppend(wait, req, why);
  }

  /**
   * `get_page` makes at most `max_retries` requests, returns the body of the
   * first served attempt, and returns None exactly when every attempt failed.
   */
  lemma GetPageOutcome(s: Settings, url: string, ua: Option<string>, net: nat -> Response, picks: nat -> nat)
    ensures var run := GetPageSpec(s, url, ua, net, picks);
            && RequestCount(run.events) <= s.maxRetries
            && (run.body.None? <==> forall i :: 0 <= i < s.maxRetries ==> net(i).RequestFailed?)
            && (run.body.Some? ==> exists j :: 0 <= j < s.maxRetries && net(j) == Served(run.body.value))
  {
    StaticAttemptsResult(s, url, 0, ua, net, picks);
    var first := FirstServed(net, 0, s.maxRetries);
    if first.Some? {
      assert net(first.value).Served?;
    }
  }

  /**
   * The sleeps of `get_page`: when attempt `j` is the first served one, no wait
   * before the first attempt, `delay * (i + 1)` before each attempt i = 1..j,
   * then one `delay` after the success.
   */
  lemma GetPageSuccessSleeps(s: Settings, url: string, ua: Option<string>, net: nat -> Response, picks: nat -> nat, j: nat)
    requires j < s.maxRetries && net(j).Served?
    requires forall i :: 0 <= i < j ==> net(i).RequestFailed?
    ensures var run := GetPageSpec(s, url, ua, net, picks);
            && run.body == Some(net(j).text)
            && RequestCount(run.events) == j + 1
            && SleepsFor(run.events, Backoff) == seq(j, i => s.delay * (i + 2))
            && SleepsFor(run.events, Politeness) == [s.delay]
  {
    StaticAttemptsResult(s, url, 0, ua, net, picks);
    StaticAttemptsBackoff(s, url, 0, ua, net, picks);
    StaticAttemptsPoliteness(s, url, 0, ua, net, picks);
    FirstServedIs(net, 0, s.maxRetries, j);
    StaticWaitsClosedForm(s.delay, j + 1);
  }

  lemma {:induction false} FirstServedIs(net: nat -> Response, k: nat, n: nat, j: nat)
    requires k <= j < n && net(j).Served?
    requires forall i :: k <= i < j ==> net(i).RequestFailed?
    ensures FirstServed(net, k, n) == Some(j)
    decreases j - k
  {
    if k < j {
      FirstServedIs(net, k + 1, n, j);
    }
  }

  /** With an empty pool every request keeps the session's User-Agent header unchanged. */
  lemma {:induction false} StaticAttemptsKeepAgent(s: Settings, url: string, k: nat, ua: Option<string>,
                                                   net: nat -> Response, picks: nat -> nat)
    requires s.userAgents == []
    ensures var run := StaticAttempts(s, url, k, ua, net, picks);
            run.userAgent == ua && forall a :: a in RequestAgents(run.events) ==> a == ua
    decreases s.maxRetries - k
  {
    if k < s.maxRetries {
      StaticAttemptsStep(s, url, k, ua, net, picks);
      AttemptAgents(s, url, k, ua, net, picks);
      if net(k).RequestFailed? {
        StaticAttemptsKeepAgent(s, url, k + 1, ua, net, picks);
      }
    }
  }

  /** With a non-empty pool every request goes out with a User-Agent drawn from the pool. */
  lemma {:induction false} StaticAttemptsPoolAgents(s: Settings, url: string, k: nat, ua: Option<string>,
                                                    net: nat -> Response, picks: nat -> nat)
    requires s.userAgents != []
    ensures forall a :: a in RequestAgents(StaticAttempts(s, url, k, ua, net, picks).events) ==>
              a.Some? && a.value in s.userAgents
    decreases s.maxRetries - k
  {
    if k < s.maxRetries {
      var ua' := Rotate(s.userAgents, ua, picks(k));
      StaticAttemptsStep(s, url, k, ua, net, picks);
      AttemptAgents(s, url, k, ua, net, picks);
      if net(k).RequestFailed? {
        StaticAttemptsPoolAgents(s, url, k + 1, ua', net, picks);
      }
    }
  }

  /** The first request of attempt `k` carries the User-Agent rotated in just before it. */
  lemma StaticAttemptsFirstAgent(s: Settings, url: string, k: nat, ua: Option<string>,
                                 net: nat -> Response, picks: nat -> nat)
    requires k < s.maxRetries
    ensures var agents := RequestAgents(StaticAttempts(s, url, k, ua, net, picks).events);
            agents != [] && agents[0] == Rotate(s.userAgents, ua, picks(k))
  {
    StaticAttemptsStep(s, url, k, ua, net, picks);
    AttemptAgents(s, url, k, ua, net, picks);
  }

  /** The User-Agents of attempt `k` and after: the rotated one, then those of the later attempts. */
  lemma AttemptAgents(s: Settings, url: string, k: nat, ua: Option<string>,
                      net: nat -> Response, picks: nat -> nat)
    requires k < s.maxRetries
    ensures var ua' := Rotate(s.userAgents, ua, picks(k));
            RequestAgents(StaticAttempts(s, url, k, ua, net, picks).events)
            == [ua'] + (if net(k).Served? then [] else RequestAgents(StaticAttempts(s, url, k + 1, ua', net, picks).events))
  {
    var ua' := Rotate(s.userAgents, ua, picks(k));
    var wait := if k > 0 then [Sleep(s.delay * (k + 1), Backoff)] else [];
    var req := [Request(url, ua')];
    var more := if net(k).Served? then [Sleep(s.delay, Politeness)]
                else StaticAttempts(s, url, k + 1, ua', net, picks).events;
    StaticAttemptsStep(s, url, k, ua, net, picks);
    if net(k).Served? {
      OneEvent(more[0], Backoff);
    }
    OneEvent(req[0], Backoff);
    if k > 0 {
      OneEvent(wait[0], Backoff);
    }
    RequestAgentsAppend(wait + req, more);
    RequestAgentsAppend(wait, req);
  }

  /** One attempt unfolded: its wait, its request, then the politeness sleep or the later attempts. */
  lemma StaticAttemptsStep(s: Settings, url: string, k: nat, ua: Option<string>,
                           net: nat -> Response, picks: nat -> nat)
    requires k < s.maxRetries
    ensures var run := StaticAttempts(s, url, k, ua, net, picks);
            var ua' := Rotate(s.userAgents, ua, picks(k));
            var wait := if k > 0 then [Sleep(s.delay * (k + 1), Backoff)] else [];
            var next := StaticAttempts(s, url, k + 1, ua', net, picks);
            && (net(k).Served? ==>
                  run == FetchRun(Some(net(k).text), wait + [Request(url, ua')] + [Sleep(s.delay, Politeness)], ua'))
            && (net(k).RequestFailed? ==>
                  run == FetchRun(next.body, wait + [Request(url, ua')] + next.events, next.userAgent))
  {
    var ua' := Rotate(s.userAgents, ua, picks(k));
    var wait := if k > 0 then [Sleep(s.delay * (k + 1), Backoff)] else [];
    assert wait + ([Request(url, ua')] + [Sleep(s.delay, Politeness)])
        == wait + [Request(url, ua')] + [Sleep(s.delay, Politeness)];
  }

  /** The events of one attempt moved from the pending run onto the trace. */
  lemma ShiftTrace(t0: seq<Event>, events: seq<Event>, before: seq<Event>, sent: seq<Event>, tail: seq<Event>)
    requires t0 + events == before + (sent + tail)
    ensures t0 + events == (before + sent) + tail
  {
  }

  /** `get_metadata`: every input key kept, and `crawler`, `timestamp`, `source_url` added over same-named keys. */
  function GetMetadata(name: string, baseUrl: string, timestamp: string, data: map<string, Value>): (r: map<string, Value>)
    ensures r.Keys == data.Keys + {"crawler", "timestamp", "source_url"}
    ensures r["crawler"] == Str(name) && r["timestamp"] == Str(timestamp) && r["source_url"] == Str(baseUrl)
    ensures forall k :: k in data && k != "crawler" && k != "timestamp" && k != "source_url" ==> r[k] == data[k]
  {
    data["crawler" := Str(name)]["timestamp" := Str(timestamp)]["source_url" := Str(baseUrl)]
  }

  // ---------------------------------------------------------------------------
  // The crawler object

  class BaseCrawler {
    const name: string
    const baseUrl: string
    const isDynamic: Value
    const settings: Settings
    /** The session's User-Agent header; None is the HTTP library's default. */
    var userAgent: Option<string>
    var trace: seq<Event>

    /** `BaseCrawler.__init__`: configuration defaults, then one User-Agent rotation. */
    constructor (config: SiteConfig, settings: Settings, pick: nat)
      ensures name == config.name.GetOr("")
      ensures baseUrl == config.url.GetOr("")
      ensures isDynamic == config.dynamic.GetOr(Bool(false))
      ensures this.settings == settings
      ensures userAgent == Rotate(settings.userAgents, None, pick)
      ensures trace == []
    {
      name := config.name.GetOr("");
      baseUrl := config.url.GetOr("");
      isDynamic := config.dynamic.GetOr(Bool(false));
      this.settings := settings;
      userAgent := Rotate(settings.userAgents, None, pick);
      trace := [];
    }

    /**
     * The `get_page` loop's invariant: what is left of the attempts from `attempt` on, after
     * the trace so far, adds up to the whole run `all` that started from trace `t0`.
     */
    ghost predicate Fetching(url: string, net: nat -> Response, picks: nat -> nat, attempt: nat,
                             t0: seq<Event>, all: FetchRun)
      reads this
    {
      var rest := StaticAttempts(settings, url, attempt, userAgent, net, picks);
      && attempt <= settings.maxRetries
      && all.body == rest.body && all.userAgent == rest.userAgent
      && t0 + all.events == trace + rest.events
    }

    /** One attempt of `get_page`: rotate the header, wait, request, and on success pause. */
    method TryOnce(url: string, net: nat -> Response, picks: nat -> nat, attempt: nat,
                   ghost t0: seq<Event>, ghost all: FetchRun) returns (html: Option<string>)
      requires attempt < settings.maxRetries && Fetching(url, net, picks, attempt, t0, all)
      modifies this`userAgent, this`trace
      ensures html.Some? ==> html == all.body && trace == t0 + all.events && userAgent == all.userAgent
      ensures html.None? ==> Fetching(url, net, picks, attempt + 1, t0, all)
    {
      ghost var before := trace;
      StaticAttemptsStep(settings, url, attempt, userAgent, net, picks);
      userAgent := Rotate(settings.userAgents, userAgent, picks(attempt));
      var wait := if attempt > 0 then [Sleep(settings.delay * (attempt + 1), Backoff)] else [];
      var sent := wait + [Request(url, userAgent)];
      trace := trace + sent;
      match net(attempt)
      case Served(t) =>
        var pause := [Sleep(settings.delay, Politeness)];
        ShiftTrace(t0, all.events, before, sent, pause);
        trace := trace + pause;
        html := Some(t);
      case RequestFailed =>
        ghost var next := StaticAttempts(settings, url, attempt + 1, userAgent, net, picks);
        ShiftTrace(t0, all.events, before, sent, next.events);
        html := None;
    }

    /** `get_page`: up to `max_retries` attempts, rotating the User-Agent before each. */
    method GetPage(url: string, net: nat -> Response, picks: nat -> nat) returns (html: Option<string>)
      modifies this`userAgent, this`trace
      ensures var run := GetPageSpec(settings, url, old(userAgent), net, picks);
              html == run.body && trace == old(trace) + run.events && userAgent == run.userAgent
    {
      if !RespectRobotsTxt(url) {
        return None;
      }
      ghost var t0 := trace;
      ghost var all := StaticAttempts(settings, url, 0, userAgent, net, picks);
      var attempt := 0;
      while attempt < settings.maxRetries
        invariant Fetching(url, net, picks, attempt, t0, all)
        decreases settings.maxRetries - attempt
      {
        html := TryOnce(url, net, picks, attempt, t0, all);
        if html.Some? {
          return;
        }
        attempt := attempt + 1;
      }
      return None;
    }
  }
}
