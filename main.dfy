/**
 * The pipeline driver: crawl the requested sites one after the other, tallying successes and
 * failures by site name, and decide from the command-line flags which stages run.
 */
module PipelineDriver {
  import opened Wrappers
  import opened Seqs
  import opened BaseCrawling
  import opened TextProcessing
  import CrawlerFactory
  import S3Storing

  const NotFoundPrefix := "Website configuration not found for "

  /** The record kept for one site: the object key of its raw data, or the error. */
  datatype SiteResult = Crawled(s3Key: string) | Failed(error: string)

  /** The result dictionary of a crawl run. */
  datatype CrawlReport = CrawlReport(
    startTime: string,
    endTime: string,
    websites: map<Option<string>, SiteResult>,
    totalPages: nat,
    successfulCrawls: nat,
    failedCrawls: nat)

  /** How a site name prints inside a message: a missing name prints as `None`. */
  function Shown(name: Option<string>): string {
    match name
    case Some(s) => s
    case None => "None"
  }

  /**
   * A configuration with every key missing: an empty dictionary, which is false and so
   * counts as not found.
   */
  predicate IsEmptyConfig(c: SiteConfig) {
    c == SiteConfig(None, None, None, None, None)
  }

  /** The names the run crawls: the requested ones, or every configured name when none is requested. */
  function NamesToCrawl(requested: Option<seq<Option<string>>>, configs: seq<SiteConfig>): (names: seq<Option<string>>)
    ensures requested.Some? && requested.value != [] ==> names == requested.value
    ensures (requested.None? || requested.value == []) ==>
              |names| == |configs| && forall i :: 0 <= i < |configs| ==> names[i] == configs[i].name
  {
    if requested.Some? && requested.value != [] then requested.value
    else seq(|configs|, i requires 0 <= i < |configs| => configs[i].name)
  }

  /** The configuration looked up for a name: the first one carrying it. */
  function FirstConfig(configs: seq<SiteConfig>, name: Option<string>): Option<SiteConfig> {
    if configs == [] then None
    else if configs[0].name == name then Some(configs[0])
    else FirstConfig(configs[1..], name)
  }

  /** The lookup finds a configuration iff one carries the name, and then the earliest one. */
  lemma {:induction false} FirstConfigIsFirst(configs: seq<SiteConfig>, name: Option<string>)
    ensures FirstConfig(configs, name).None? <==> forall i :: 0 <= i < |configs| ==> configs[i].name != name
    ensures FirstConfig(configs, name).Some? ==>
              exists i :: 0 <= i < |configs| && configs[i] == FirstConfig(configs, name).value
                          && configs[i].name == name
                          && forall j :: 0 <= j < i ==> configs[j].name != name
  {
    if configs != [] && configs[0].name != name {
      var rest := configs[1..];
      FirstConfigIsFirst(rest, name);
      if FirstConfig(rest, name).Some? {
        var i :| 0 <= i < |rest| && rest[i] == FirstConfig(rest, name).value && rest[i].name == name
                 && forall j :: 0 <= j < i ==> rest[j].name != name;
        assert configs[i + 1] == rest[i];
        forall j | 0 <= j < i + 1 ensures configs[j].name != name {
          if j > 0 {
            assert configs[j] == rest[j - 1];
          }
        }
      } else {
        forall i | 0 <= i < |configs| ensures configs[i].name != name {
          if i > 0 {
            assert configs[i] == rest[i - 1];
          }
        }
      }
    }
  }

  /** The scan over the configured sites for a name, stopping at the first match. */
  method FindConfig(configs: seq<SiteConfig>, name: Option<string>) returns (found: Option<SiteConfig>)
    ensures found == FirstConfig(configs, name)
  {
    found := None;
    var i := 0;
    while i < |configs|
      invariant 0 <= i <= |configs|
      invariant FirstConfig(configs[i..], name) == FirstConfig(configs, name)
    {
      if configs[i].name == name {
        found := Some(configs[i]);
        break;
      }
      assert configs[i..][1..] == configs[i + 1..];
      i := i + 1;
    }
  }

  /**
   * The record for the `i`-th name crawled. A name without a (non-empty) configuration fails
   * with a message naming it; otherwise `attempt(i, config)` is what creating the crawler and
   * streaming its pages to storage came to: the object key, or the error it raised.
   */
  function SiteOutcome(configs: seq<SiteConfig>, name: Option<string>, i: nat,
                       attempt: (nat, SiteConfig) -> Result<string, string>): SiteResult
  {
    var found := FirstConfig(configs, name);
    if found.None? || IsEmptyConfig(found.value) then Failed(NotFoundPrefix + Shown(name))
    else
      match attempt(i, found.value)
      case Ok(key) => Crawled(key)
      case Err(e) => Failed(e)
  }

  /** The record of every name, in crawl order. */
  function Outcomes(names: seq<Option<string>>, configs: seq<SiteConfig>,
                    attempt: (nat, SiteConfig) -> Result<string, string>): (outs: seq<SiteResult>)
    ensures |outs| == |names|
    ensures forall i :: 0 <= i < |names| ==> outs[i] == SiteOutcome(configs, names[i], i, attempt)
  {
    seq(|names|, i requires 0 <= i < |names| => SiteOutcome(configs, names[i], i, attempt))
  }

  /** How many records are successes. */
  function Successes(outs: seq<SiteResult>): nat {
    if outs == [] then 0
    else Successes(outs[..|outs| - 1]) + (if outs[|outs| - 1].Crawled? then 1 else 0)
  }

  /** How many records are failures. */
  function Failures(outs: seq<SiteResult>): nat {
    if outs == [] then 0
    else Failures(outs[..|outs| - 1]) + (if outs[|outs| - 1].Failed? then 1 else 0)
  }

  /** Every name processed is counted exactly once, as a success or as a failure. */
  lemma {:induction false} TallyTotal(outs: seq<SiteResult>)
    ensures Successes(outs) + Failures(outs) == |outs|
    ensures Successes(outs) == |outs| <==> forall i :: 0 <= i < |outs| ==> outs[i].Crawled?
  {
    if outs != [] {
      var p := outs[..|outs| - 1];
      TallyTotal(p);
      assert forall i :: 0 <= i < |p| ==> p[i] == outs[i];
      if Successes(outs) == |outs| {
        assert Successes(p) <= |p| by {
          TallyTotal(p);
        }
      }
    }
  }

  /** A name without a configuration is always recorded as a failure naming it. */
  lemma UnknownSiteFails(configs: seq<SiteConfig>, name: Option<string>, i: nat,
                         attempt: (nat, SiteConfig) -> Result<string, string>)
    requires forall k :: 0 <= k < |configs| ==> configs[k].name != name
    ensures SiteOutcome(configs, name, i, attempt) == Failed(NotFoundPrefix + Shown(name))
  {
    FirstConfigIsFirst(configs, name);
  }

  /**
   * The `websites` entry of a name crawled more than once is the record of its last crawl.
   */
  lemma WebsitesLastWins(names: seq<Option<string>>, outs: seq<SiteResult>, i: nat)
    requires |names| == |outs| && i < |names|
    requires forall j :: i < j < |names| ==> names[j] != names[i]
    ensures names[i] in Assigned(names, outs)
    ensures Assigned(names, outs)[names[i]] == outs[i]
  {
    AssignedLastWins(names, outs, i);
  }

  /** The result dictionary and the two counters after the first `i` names. */
  ghost predicate Tallied(names: seq<Option<string>>, outs: seq<SiteResult>, i: nat,
                          websites: map<Option<string>, SiteResult>, successful: nat, failed: nat)
  {
    && i <= |names| == |outs|
    && websites == Assigned(names[..i], outs[..i])
    && successful == Successes(outs[..i])
    && failed == Failures(outs[..i])
  }

  /** The record of the `i`-th name entered under the name and counted. */
  method Record(names: seq<Option<string>>, ghost outs: seq<SiteResult>, i: nat, out: SiteResult,
                websites: map<Option<string>, SiteResult>, successful: nat, failed: nat)
    returns (websites': map<Option<string>, SiteResult>, successful': nat, failed': nat)
    requires i < |names| && Tallied(names, outs, i, websites, successful, failed)
    requires out == outs[i]
    ensures Tallied(names, outs, i + 1, websites', successful', failed')
  {
    AssignedSnoc(names, outs, i);
    assert outs[..i + 1][..i] == outs[..i];
    websites' := websites[names[i] := out];
    if out.Crawled? {
      successful', failed' := successful + 1, failed;
    } else {
      successful', failed' := successful, failed + 1;
    }
  }

  /** Once every name is recorded: each one has an entry, and each is counted once. */
  lemma TalliedAll(names: seq<Option<string>>, outs: seq<SiteResult>,
                   websites: map<Option<string>, SiteResult>, successful: nat, failed: nat)
    requires Tallied(names, outs, |names|, websites, successful, failed)
    ensures websites == Assigned(names, outs)
    ensures forall n :: n in websites <==> n in names
    ensures successful == Successes(outs) && failed == Failures(outs)
    ensures successful + failed == |names|
  {
    assert names[..|names|] == names && outs[..|outs|] == outs;
    TallyTotal(outs);
    AssignedKeys(names, outs);
  }

  /** One turn of the crawl loop: the record of the `i`-th name, and the crawler built if any. */
  method CrawlOne(configs: seq<SiteConfig>, name: Option<string>, i: nat,
                  attempt: (nat, SiteConfig) -> Result<string, string>,
                  settings: Settings, picks: nat -> nat, co: Collaborators, now: string)
    returns (out: SiteResult, built: Option<SiteConfig>)
    ensures out == SiteOutcome(configs, name, i, attempt)
    ensures built.Some? <==> FirstConfig(configs, name).Some? && !IsEmptyConfig(FirstConfig(configs, name).value)
    ensures built.Some? ==> built == FirstConfig(configs, name) && built.value in configs
  {
    var found := FindConfig(configs, name);
    if found.None? || IsEmptyConfig(found.value) {
      out := Failed(NotFoundPrefix + Shown(name));
      built := None;
    } else {
      var crawler := CrawlerFactory.CreateCrawler(found.value, settings, picks(i), co, now);
      built := found;
      FirstConfigIsFirst(configs, name);
      match attempt(i, found.value)
      case Ok(key) =>
        out := Crawled(key);
      case Err(e) =>
        out := Failed(e);
    }
  }

  /**
   * `crawl_websites`: open the object store, then crawl each name in turn, recording under the
   * name its object key or its error and counting successes and failures. Opening the store
   * raises before any site is crawled when a credential or the bucket is missing. `startTime`
   * and `endTime` are the two clock readings; `created` lists the configurations a crawler was
   * built from.
   */
  method CrawlWebsites(requested: Option<seq<Option<string>>>, configs: seq<SiteConfig>,
                       storage: S3Storing.StorageConfig, respond: nat -> S3Storing.Reply,
                       attempt: (nat, SiteConfig) -> Result<string, string>,
                       settings: Settings, picks: nat -> nat, co: Collaborators,
                       startTime: string, endTime: string)
    returns (r: Result<CrawlReport, S3Storing.StorageError>, created: seq<SiteConfig>)
    ensures r.Err? <==> !S3Storing.CredentialsPresent(storage)
    ensures r.Err? ==> r.error == S3Storing.MissingCredentials && created == []
    ensures r.Ok? ==>
              var names := NamesToCrawl(requested, configs);
              var outs := Outcomes(names, configs, attempt);
              var report := r.value;
              && report.startTime == startTime && report.endTime == endTime
              && report.websites == Assigned(names, outs)
              && (forall n :: n in report.websites <==> n in names)
              && report.totalPages == 0
              && report.successfulCrawls == Successes(outs)
              && report.failedCrawls == Failures(outs)
              && report.successfulCrawls + report.failedCrawls == |names|
    ensures forall c :: c in created ==> c in configs && !IsEmptyConfig(c)
  {
    created := [];
    var store := S3Storing.NewS3Storage(storage, respond);
    if store.Err? {
      return Err(store.error), created;
    }
    var names := NamesToCrawl(requested, configs);
    ghost var outs := Outcomes(names, configs, attempt);
    var websites: map<Option<string>, SiteResult> := map[];
    var successful, failed := 0, 0;
    var i := 0;
    assert names[..0] == [] && outs[..0] == [];
    while i < |names|
      invariant 0 <= i <= |names|
      invariant Tallied(names, outs, i, websites, successful, failed)
      invariant forall c :: c in created ==> c in configs && !IsEmptyConfig(c)
    {
      var out, built := CrawlOne(configs, names[i], i, attempt, settings, picks, co, startTime);
      if built.Some? {
        created := created + [built.value];
      }
      websites, successful, failed := Record(names, outs, i, out, websites, successful, failed);
      i := i + 1;
    }
    TalliedAll(names, outs, websites, successful, failed);
    r := Ok(CrawlReport(startTime, endTime, websites, 0, successful, failed));
  }

  /** The command-line flags: `--websites` (possibly given with no names), `--news`, `--all`. */
  datatype Args = Args(websites: Option<seq<string>>, news: bool, all: bool)

  /** Whether `--websites` names at least one site (a flag given with no names is false). */
  predicate NamesGiven(args: Args) {
    args.websites.Some? && args.websites.value != []
  }

  /**
   * `main`'s stage choice: with none of the flags set, `all` is switched on; sites are crawled
   * iff names are given or `all` is set, and news is fetched iff `--news` or `all` is set.
   * `names` is what the crawl stage is asked to crawl.
   */
  method ChooseStages(args: Args) returns (crawl: bool, news: bool, names: Option<seq<Option<string>>>)
    ensures crawl <==> NamesGiven(args) || args.all || !args.news
    ensures news <==> args.news || args.all || !NamesGiven(args)
    ensures crawl || news
    ensures !NamesGiven(args) && !args.news && !args.all ==> crawl && news
    ensures names.Some? <==> args.websites.Some?
    ensures names.Some? ==> |names.value| == |args.websites.value|
                            && forall i :: 0 <= i < |names.value| ==> names.value[i] == Some(args.websites.value[i])
  {
    var all := args.all;
    if !(NamesGiven(args) || args.news || all) {
      all := true;
    }
    crawl := NamesGiven(args) || all;
    news := args.news || all;
    match args.websites
    case None =>
      names := None;
    case Some(ws) =>
      names := Some(seq(|ws|, i requires 0 <= i < |ws| => Some(ws[i])));
  }
}
