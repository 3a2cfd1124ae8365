/**
 * The crawler factory: a site whose `dynamic` setting is truthy gets a rendering crawler,
 * every other site a static one; the registry of all configured sites is keyed by name.
 */
module CrawlerFactory {
  import opened Wrappers
  import opened Seqs
  import opened BaseCrawling
  import opened TextProcessing
  import opened StaticCrawling
  import opened DynamicCrawling

  /** The crawler built for one site. */
  datatype Crawler = StaticSite(s: StaticCrawler) | DynamicSite(d: DynamicCrawler) {
    /** The base crawler underneath, whichever kind. */
    function Base(): BaseCrawler {
      match this
      case StaticSite(s) => s.base
      case DynamicSite(d) => d.crawler.base
    }
  }

  /** `website_config.get("dynamic", False)` read for its truth. */
  predicate WantsRendering(config: SiteConfig) {
    config.dynamic.Some? && Truthy(config.dynamic.value)
  }

  /** The key a site is registered under: its name, or "" when it has none. */
  function RegistryName(config: SiteConfig): string {
    config.name.GetOr("")
  }

  /** A crawler built from `config`: the kind its `dynamic` setting asks for, and its name and URL. */
  predicate BuiltFrom(c: Crawler, config: SiteConfig) {
    && (c.DynamicSite? <==> WantsRendering(config))
    && c.Base().name == config.name.GetOr("")
    && c.Base().baseUrl == config.url.GetOr("")
  }

  /** `create_crawler`: a new crawler of the kind the configuration asks for. */
  method CreateCrawler(config: SiteConfig, settings: Settings, pick: nat, co: Collaborators, startTime: string)
    returns (c: Crawler)
    ensures BuiltFrom(c, config)
    ensures c.StaticSite? ==> fresh(c.s) && fresh(c.s.base) && fresh(c.s.processor)
    ensures c.DynamicSite? ==> fresh(c.d) && fresh(c.d.crawler) && fresh(c.d.crawler.base)
  {
    if WantsRendering(config) {
      var d := new DynamicCrawler(config, settings, pick, co, startTime);
      c := DynamicSite(d);
    } else {
      var s := new StaticCrawler(config, settings, pick, co, startTime);
      c := StaticSite(s);
    }
  }

  /** The registry key of every configuration, in order. */
  function RegistryNames(configs: seq<SiteConfig>): (names: seq<string>)
    ensures |names| == |configs|
    ensures forall i :: 0 <= i < |configs| ==> names[i] == configs[i].name.GetOr("")
  {
    seq(|configs|, i requires 0 <= i < |configs| => RegistryName(configs[i]))
  }

  /** The configuration each registry key ends up built from. */
  function Registry(configs: seq<SiteConfig>): map<string, SiteConfig> {
    Assigned(RegistryNames(configs), configs)
  }

  /**
   * One registry entry per distinct name (a configuration without a name under ""), holding
   * the last configuration with that name.
   */
  lemma RegistryLastWins(configs: seq<SiteConfig>)
    ensures forall n :: n in Registry(configs) <==> exists i :: 0 <= i < |configs| && configs[i].name.GetOr("") == n
    ensures forall i :: 0 <= i < |configs|
                        && (forall j :: i < j < |configs| ==> RegistryName(configs[j]) != RegistryName(configs[i]))
                        ==> Registry(configs)[RegistryName(configs[i])] == configs[i]
  {
    var names := RegistryNames(configs);
    AssignedKeys(names, configs);
    forall n | n in Registry(configs)
      ensures exists i :: 0 <= i < |configs| && configs[i].name.GetOr("") == n
    {
      var i :| 0 <= i < |names| && names[i] == n;
    }
    forall i | 0 <= i < |configs|
               && (forall j :: i < j < |configs| ==> RegistryName(configs[j]) != RegistryName(configs[i]))
      ensures Registry(configs)[RegistryName(configs[i])] == configs[i]
    {
      AssignedLastWins(names, configs, i);
    }
  }

  /**
   * `create_all_crawlers`: one crawler per configuration, registered under its name; a later
   * configuration with the same name replaces the earlier crawler. `picks(i)` is the random
   * user-agent choice made for the i-th configuration.
   */
  method CreateAllCrawlers(configs: seq<SiteConfig>, settings: Settings, picks: nat -> nat,
                           co: Collaborators, startTime: string)
    returns (crawlers: map<string, Crawler>)
    ensures crawlers.Keys == Registry(configs).Keys
    ensures forall n :: n in crawlers ==> BuiltFrom(crawlers[n], Registry(configs)[n])
  {
    ghost var names := RegistryNames(configs);
    crawlers := map[];
    var i := 0;
    while i < |configs|
      invariant 0 <= i <= |configs|
      invariant crawlers.Keys == Assigned(names[..i], configs[..i]).Keys
      invariant forall n :: n in crawlers ==> BuiltFrom(crawlers[n], Assigned(names[..i], configs[..i])[n])
    {
      var config := configs[i];
      AssignedSnoc(names, configs, i);
      var c := CreateCrawler(config, settings, picks(i), co, startTime);
      crawlers := crawlers[RegistryName(config) := c];
      i := i + 1;
    }
    assert names[..i] == names && configs[..i] == configs;
  }
}
