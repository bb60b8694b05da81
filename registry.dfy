/** The job registry (bumboo-scraper/scrapers/registry.py): one scrape job
    per listed catalog slug, each built from its catalog entry, collected
    into `SCRAPE_JOBS` under the job name. The catalog the builders look
    slugs up in is a parameter of the builders, so that their properties
    hold for any catalog; the registry itself uses `PRODUCT_CATALOG`. */
module Registry {
  import opened Text
  import opened Models
  import opened Catalog

  const ColdStorageSlugs: seq<string> := [
    "coldstorage-kleenex", "coldstorage-nootrees", "coldstorage-paseo", "coldstorage-pursoft",
    "coldstorage-vinda", "coldstorage-tempo", "coldstorage-cloversoft"
  ]

  const FairPriceSlugs: seq<string> := [
    "fairprice-kleenex", "fairprice-paseo", "fairprice-pursoft", "fairprice-fairprice",
    "fairprice-beautex", "fairprice-neutra", "fairprice-cloversoft", "fairprice-nootrees",
    "fairprice-tempo"
  ]

  const RedMartSlugs: seq<string> := [
    "redmart-tempo", "redmart-kleenex", "redmart-pursoft", "redmart-vinda",
    "redmart-beautex", "redmart-paseo", "redmart-cloversoft", "redmart-nootrees"
  ]

  // ---------------------------------------------------------------------
  // Options

  /** The keys of a job's options: "url" always, "size" and "ply" when the
      entry sets them to non-empty text, and every extra option. */
  function OptionKeys(config: ProductConfig): set<string>
  {
    {"url"}
    + (if Truthy(config.size) then {"size"} else {})
    + (if Truthy(config.ply) then {"ply"} else {})
    + config.extraOptions.Keys
  }

  /** The value under `k`: an extra option wins over the entry's own field. */
  function OptionValue(config: ProductConfig, k: string): string
  {
    if k in config.extraOptions then config.extraOptions[k]
    else if k == "size" && config.size.Some? then config.size.value
    else if k == "ply" && config.ply.Some? then config.ply.value
    else config.url
  }

  /** The options a job is built with, key by key. */
  function Options(config: ProductConfig): map<string, string>
  {
    map k | k in OptionKeys(config) :: OptionValue(config, k)
  }

  /** `_options_from_config`: start from the url, add size and ply when
      set, then let the extra options override. */
  method OptionsFromConfig(config: ProductConfig) returns (options: map<string, string>)
    ensures options == Options(config)
  {
    options := map["url" := config.url];
    if Truthy(config.size) {
      options := options["size" := config.size.value];
    }
    if Truthy(config.ply) {
      options := options["ply" := config.ply.value];
    }
    options := options + config.extraOptions;
    assert options.Keys == OptionKeys(config);
  }

  /** "url" is always present and is the entry's url unless an extra option
      replaces it; "size" and "ply" come from the entry only when non-empty;
      every extra option is kept as given, and nothing else is added. */
  lemma OptionsExactly(config: ProductConfig)
    ensures "url" in Options(config)
    ensures "url" !in config.extraOptions ==> Options(config)["url"] == config.url
    ensures "size" in Options(config) <==> Truthy(config.size) || "size" in config.extraOptions
    ensures "size" !in config.extraOptions && Truthy(config.size) ==> Options(config)["size"] == config.size.value
    ensures "ply" in Options(config) <==> Truthy(config.ply) || "ply" in config.extraOptions
    ensures "ply" !in config.extraOptions && Truthy(config.ply) ==> Options(config)["ply"] == config.ply.value
    ensures forall k :: k in config.extraOptions ==> k in Options(config) && Options(config)[k] == config.extraOptions[k]
    ensures forall k :: k in Options(config) ==> k == "url" || k == "size" || k == "ply" || k in config.extraOptions
  {
  }

  // ---------------------------------------------------------------------
  // Jobs

  /** The job for a catalog entry, under `name`, run by `kind`. */
  function JobOf(config: ProductConfig, name: string, kind: ScraperKind): ScrapeJob
  {
    ScrapeJob(name, config.brand, config.description, config.siteName, kind, Options(config))
  }

  /** `_build_*_job`: look the slug up in the catalog (KeyError when it is
      missing) and build the job from its entry. */
  function BuildJob(catalog: map<string, ProductConfig>, slug: string, name: string, kind: ScraperKind): (r: Result<ScrapeJob>)
    ensures r.Ok? <==> slug in catalog
    ensures r.Err? ==> r.error == "KeyError"
  {
    if slug in catalog then Ok(JobOf(catalog[slug], name, kind)) else Err("KeyError")
  }

  /** `_build_*_jobs`: one job per slug, named by the slug, in list order;
      the first missing slug raises. */
  function BuildJobs(catalog: map<string, ProductConfig>, slugs: seq<string>, kind: ScraperKind): Result<seq<ScrapeJob>>
  {
    if slugs == [] then Ok([])
    else
      var last := slugs[|slugs| - 1];
      match BuildJobs(catalog, slugs[..|slugs| - 1], kind)
      case Err(e) => Err(e)
      case Ok(jobs) =>
        match BuildJob(catalog, last, last, kind)
        case Err(e) => Err(e)
        case Ok(job) => Ok(jobs + [job])
  }

  /** Every job of the registry in insertion order: the example job, then
      the Cold Storage, FairPrice and RedMart jobs. */
  function JobList(catalog: map<string, ProductConfig>): Result<seq<ScrapeJob>>
  {
    match BuildJob(catalog, ExampleSlug, "example", ExampleScraper)
    case Err(e) => Err(e)
    case Ok(example) =>
      match BuildJobs(catalog, ColdStorageSlugs, ColdStorageScraper)
      case Err(e) => Err(e)
      case Ok(cs) =>
        match BuildJobs(catalog, FairPriceSlugs, FairPriceScraper)
        case Err(e) => Err(e)
        case Ok(fp) =>
          match BuildJobs(catalog, RedMartSlugs, RedMartScraper)
          case Err(e) => Err(e)
          case Ok(rm) => Ok([example] + cs + fp + rm)
  }

  /** A dictionary keyed by job name; a later job with the same name wins,
      as when the per-site dictionaries are merged in order. */
  function ByName(jobs: seq<ScrapeJob>): map<string, ScrapeJob>
  {
    if jobs == [] then map[]
    else ByName(jobs[..|jobs| - 1])[jobs[|jobs| - 1].name := jobs[|jobs| - 1]]
  }

  /** `SCRAPE_JOBS`, or the KeyError raised while building it. */
  function ScrapeJobs(): Result<map<string, ScrapeJob>>
  {
    match JobList(ProductCatalog())
    case Err(e) => Err(e)
    case Ok(jobs) => Ok(ByName(jobs))
  }

  /** The job registered under `name` in `jobs`, or KeyError. */
  function JobNamed(jobs: map<string, ScrapeJob>, name: string): (r: Result<ScrapeJob>)
    ensures r.Ok? <==> name in jobs
    ensures r.Ok? ==> r.value == jobs[name]
    ensures r.Err? ==> r.error == "KeyError"
  {
    if name in jobs then Ok(jobs[name]) else Err("KeyError")
  }

  /** `get_job` */
  function GetJob(name: string): Result<ScrapeJob>
  {
    match ScrapeJobs()
    case Err(e) => Err(e)
    case Ok(jobs) => JobNamed(jobs, name)
  }

  /** `list_jobs`: the registered jobs in insertion order. */
  function ListJobs(): Result<seq<ScrapeJob>>
  {
    JobList(ProductCatalog())
  }

  // ---------------------------------------------------------------------
  // Properties of the builders

  /** The jobs are built exactly when every slug is in the catalog; job i
      is then the job of slug i's entry, named by the slug. */
  lemma {:induction false} BuildJobsExactly(catalog: map<string, ProductConfig>, slugs: seq<string>, kind: ScraperKind)
    ensures BuildJobs(catalog, slugs, kind).Ok? <==> forall i :: 0 <= i < |slugs| ==> slugs[i] in catalog
    ensures BuildJobs(catalog, slugs, kind).Err? ==> BuildJobs(catalog, slugs, kind).error == "KeyError"
    ensures BuildJobs(catalog, slugs, kind).Ok? ==>
              var jobs := BuildJobs(catalog, slugs, kind).value;
              |jobs| == |slugs| && forall i :: 0 <= i < |slugs| ==> jobs[i] == JobOf(catalog[slugs[i]], slugs[i], kind)
  {
    if slugs != [] {
      var init := slugs[..|slugs| - 1];
      BuildJobsExactly(catalog, init, kind);
      assert forall i :: 0 <= i < |init| ==> slugs[i] == init[i];
    }
  }

  /** A name is a key exactly when some job has it; the job stored under a
      name has that name and is one of the jobs. */
  lemma {:induction false} ByNameExactly(jobs: seq<ScrapeJob>)
    ensures forall k :: k in ByName(jobs) <==> exists i :: 0 <= i < |jobs| && jobs[i].name == k
    ensures forall k :: k in ByName(jobs) ==> ByName(jobs)[k].name == k && ByName(jobs)[k] in jobs
  {
    if jobs != [] {
      var init := jobs[..|jobs| - 1];
      ByNameExactly(init);
      assert forall i :: 0 <= i < |init| ==> jobs[i] == init[i];
      assert forall j :: j in init ==> j in jobs;
    }
  }

  /** With distinct names, every job is stored under its own name and none
      is lost. */
  lemma {:induction false} ByNameDistinct(jobs: seq<ScrapeJob>)
    requires forall i, j :: 0 <= i < j < |jobs| ==> jobs[i].name != jobs[j].name
    ensures forall i :: 0 <= i < |jobs| ==> jobs[i].name in ByName(jobs) && ByName(jobs)[jobs[i].name] == jobs[i]
    ensures |ByName(jobs)| == |jobs|
  {
    if jobs != [] {
      var init := jobs[..|jobs| - 1];
      var last := jobs[|jobs| - 1];
      ByNameDistinct(init);
      ByNameExactly(init);
      assert last.name !in ByName(init);
      forall i | 0 <= i < |jobs| - 1
        ensures jobs[i].name in ByName(jobs) && ByName(jobs)[jobs[i].name] == jobs[i]
      {
        assert jobs[i] == init[i];
      }
    }
  }

  // ---------------------------------------------------------------------
  // Properties of the registry

  /** The job names in insertion order. */
  function Names(): seq<string>
  {
    ["example"] + ColdStorageSlugs + FairPriceSlugs + RedMartSlugs
  }

  /** Each listed slug is the slug of the catalog row in the same place. */
  lemma ColdStorageSlugsAreRowSlugs()
    ensures |ColdStorageSlugs| == |ColdStorageRows|
    ensures forall i :: 0 <= i < |ColdStorageSlugs| ==> ColdStorageSlugs[i] == "coldstorage-" + ColdStorageRows[i].key
  {
    assert ColdStorageSlugs[0] == "coldstorage-" + ColdStorageRows[0].key;
    assert ColdStorageSlugs[1] == "coldstorage-" + ColdStorageRows[1].key;
    assert ColdStorageSlugs[2] == "coldstorage-" + ColdStorageRows[2].key;
    assert ColdStorageSlugs[3] == "coldstorage-" + ColdStorageRows[3].key;
    assert ColdStorageSlugs[4] == "coldstorage-" + ColdStorageRows[4].key;
    assert ColdStorageSlugs[5] == "coldstorage-" + ColdStorageRows[5].key;
    assert ColdStorageSlugs[6] == "coldstorage-" + ColdStorageRows[6].key;
  }

  lemma FairPriceSlugsAreRowSlugs()
    ensures |FairPriceSlugs| == |FairPriceRows|
    ensures forall i :: 0 <= i < |FairPriceSlugs| ==> FairPriceSlugs[i] == "fairprice-" + FairPriceRows[i].key
  {
    assert FairPriceSlugs[0] == "fairprice-" + FairPriceRows[0].key;
    assert FairPriceSlugs[1] == "fairprice-" + FairPriceRows[1].key;
    assert FairPriceSlugs[2] == "fairprice-" + FairPriceRows[2].key;
    assert FairPriceSlugs[3] == "fairprice-" + FairPriceRows[3].key;
    assert FairPriceSlugs[4] == "fairprice-" + FairPriceRows[4].key;
    assert FairPriceSlugs[5] == "fairprice-" + FairPriceRows[5].key;
    assert FairPriceSlugs[6] == "fairprice-" + FairPriceRows[6].key;
    assert FairPriceSlugs[7] == "fairprice-" + FairPriceRows[7].key;
    assert FairPriceSlugs[8] == "fairprice-" + FairPriceRows[8].key;
  }

  lemma RedMartSlugsAreRowSlugs()
    ensures |RedMartSlugs| == |RedMartRows|
    ensures forall i :: 0 <= i < |RedMartSlugs| ==> RedMartSlugs[i] == "redmart-" + RedMartRows[i].key
  {
    assert RedMartSlugs[0] == "redmart-" + RedMartRows[0].key;
    assert RedMartSlugs[1] == "redmart-" + RedMartRows[1].key;
    assert RedMartSlugs[2] == "redmart-" + RedMartRows[2].key;
    assert RedMartSlugs[3] == "redmart-" + RedMartRows[3].key;
    assert RedMartSlugs[4] == "redmart-" + RedMartRows[4].key;
    assert RedMartSlugs[5] == "redmart-" + RedMartRows[5].key;
    assert RedMartSlugs[6] == "redmart-" + RedMartRows[6].key;
    assert RedMartSlugs[7] == "redmart-" + RedMartRows[7].key;
  }

  /** Every listed slug is in the catalog, so building the registry raises
      nothing; each looks up its row's entry. */
  lemma ColdStorageListed()
    ensures forall i :: 0 <= i < |ColdStorageSlugs| ==>
              ColdStorageSlugs[i] in ProductCatalog() && ProductCatalog()[ColdStorageSlugs[i]] == ColdStorageConfig(ColdStorageRows[i])
  {
    RowEntries();
    ColdStorageSlugsAreRowSlugs();
    forall i | 0 <= i < |ColdStorageSlugs|
      ensures ColdStorageSlugs[i] in ProductCatalog() && ProductCatalog()[ColdStorageSlugs[i]] == ColdStorageConfig(ColdStorageRows[i])
    {
      var c := ColdStorageConfig(ColdStorageRows[i]);
      assert c.slug == ColdStorageSlugs[i];
      assert GetProduct(c.slug) == Ok(c);
    }
  }

  lemma FairPriceListed()
    ensures forall i :: 0 <= i < |FairPriceSlugs| ==>
              FairPriceSlugs[i] in ProductCatalog() && ProductCatalog()[FairPriceSlugs[i]] == FairPriceConfig(FairPriceRows[i])
  {
    RowEntries();
    FairPriceSlugsAreRowSlugs();
    forall i | 0 <= i < |FairPriceSlugs|
      ensures FairPriceSlugs[i] in ProductCatalog() && ProductCatalog()[FairPriceSlugs[i]] == FairPriceConfig(FairPriceRows[i])
    {
      var c := FairPriceConfig(FairPriceRows[i]);
      assert c.slug == FairPriceSlugs[i];
      assert GetProduct(c.slug) == Ok(c);
    }
  }

  lemma RedMartListed()
    ensures forall i :: 0 <= i < |RedMartSlugs| ==>
              RedMartSlugs[i] in ProductCatalog() && ProductCatalog()[RedMartSlugs[i]] == RedMartConfig(RedMartRows[i])
  {
    RowEntries();
    RedMartSlugsAreRowSlugs();
    forall i | 0 <= i < |RedMartSlugs|
      ensures RedMartSlugs[i] in ProductCatalog() && ProductCatalog()[RedMartSlugs[i]] == RedMartConfig(RedMartRows[i])
    {
      var c := RedMartConfig(RedMartRows[i]);
      assert c.slug == RedMartSlugs[i];
      assert GetProduct(c.slug) == Ok(c);
    }
  }

  /** Names that follow the slugs of a list of entries, after a first name
      shorter than any of them. */
  lemma AlignedNames(first: string, xs: seq<string>, ys: seq<string>, zs: seq<string>,
                     example: ProductConfig, cs: seq<ProductConfig>, fp: seq<ProductConfig>, rm: seq<ProductConfig>)
    requires |xs| == |cs| && forall i :: 0 <= i < |xs| ==> xs[i] == cs[i].slug
    requires |ys| == |fp| && forall i :: 0 <= i < |ys| ==> ys[i] == fp[i].slug
    requires |zs| == |rm| && forall i :: 0 <= i < |zs| ==> zs[i] == rm[i].slug
    ensures var names := [first] + xs + ys + zs;
            var configs := [example] + cs + fp + rm;
            |names| == |configs| && forall k :: 1 <= k < |names| ==> names[k] == configs[k].slug
  {
    var names := [first] + xs + ys + zs;
    var configs := [example] + cs + fp + rm;
    forall k | 1 <= k < |names|
      ensures names[k] == configs[k].slug
    {
      if k < 1 + |xs| {
        assert names[k] == xs[k - 1] && configs[k] == cs[k - 1];
      } else if k < 1 + |xs| + |ys| {
        assert names[k] == ys[k - 1 - |xs|] && configs[k] == fp[k - 1 - |xs|];
      } else {
        assert names[k] == zs[k - 1 - |xs| - |ys|] && configs[k] == rm[k - 1 - |xs| - |ys|];
      }
    }
  }

  lemma ColdStorageAligned()
    ensures |ColdStorageSlugs| == |MapSeq(ColdStorageConfig, ColdStorageRows)|
    ensures forall i :: 0 <= i < |ColdStorageSlugs| ==> ColdStorageSlugs[i] == MapSeq(ColdStorageConfig, ColdStorageRows)[i].slug
  {
    ColdStorageSlugsAreRowSlugs();
    MapSeqAt(ColdStorageConfig, ColdStorageRows);
  }

  lemma FairPriceAligned()
    ensures |FairPriceSlugs| == |MapSeq(FairPriceConfig, FairPriceRows)|
    ensures forall i :: 0 <= i < |FairPriceSlugs| ==> FairPriceSlugs[i] == MapSeq(FairPriceConfig, FairPriceRows)[i].slug
  {
    FairPriceSlugsAreRowSlugs();
    MapSeqAt(FairPriceConfig, FairPriceRows);
  }

  lemma RedMartAligned()
    ensures |RedMartSlugs| == |MapSeq(RedMartConfig, RedMartRows)|
    ensures forall i :: 0 <= i < |RedMartSlugs| ==> RedMartSlugs[i] == MapSeq(RedMartConfig, RedMartRows)[i].slug
  {
    RedMartSlugsAreRowSlugs();
    MapSeqAt(RedMartConfig, RedMartRows);
  }

  /** After "example", the job names are the catalog slugs in catalog order. */
  lemma NamesAreSlugs()
    ensures |Names()| == |Configs()|
    ensures forall k :: 1 <= k < |Names()| ==> Names()[k] == Configs()[k].slug
  {
    ColdStorageAligned();
    FairPriceAligned();
    RedMartAligned();
    AlignedNames("example", ColdStorageSlugs, FairPriceSlugs, RedMartSlugs, ExampleConfig,
      MapSeq(ColdStorageConfig, ColdStorageRows), MapSeq(FairPriceConfig, FairPriceRows), MapSeq(RedMartConfig, RedMartRows));
  }

  /** Names that follow distinct slugs, after a first name that starts with
      a character no slug starts with, are distinct. */
  lemma DistinctAfterFirst(names: seq<string>, configs: seq<ProductConfig>)
    requires |names| == |configs| && forall k :: 1 <= k < |names| ==> names[k] == configs[k].slug
    requires DistinctSlugs(configs)
    requires forall k :: 1 <= k < |configs| ==> |configs[k].slug| > 0 && configs[k].slug[0] in {'c', 'f', 'r'}
    requires |names| > 0 && |names[0]| > 0 && names[0][0] == 'e'
    ensures forall i, j :: 0 <= i < j < |names| ==> names[i] != names[j]
  {
    forall i, j | 0 <= i < j < |names|
      ensures names[i] != names[j]
    {
      if i == 0 {
        assert names[j][0] in {'c', 'f', 'r'};
      } else {
        assert configs[i].slug != configs[j].slug;
      }
    }
  }

  /** No two jobs share a name. */
  lemma NamesDistinct()
    ensures forall i, j :: 0 <= i < j < |Names()| ==> Names()[i] != Names()[j]
  {
    NamesAreSlugs();
    SlugsDistinct();
    assert Names()[0] == "example";
    DistinctAfterFirst(Names(), Configs());
  }

  /** With every listed slug in the catalog, the job list holds the example
      job and then one job per listed slug, in list order, named by it and
      run by its site's scraper. */
  lemma JobListExactly(catalog: map<string, ProductConfig>)
    requires ExampleSlug in catalog
    requires forall i :: 0 <= i < |ColdStorageSlugs| ==> ColdStorageSlugs[i] in catalog
    requires forall i :: 0 <= i < |FairPriceSlugs| ==> FairPriceSlugs[i] in catalog
    requires forall i :: 0 <= i < |RedMartSlugs| ==> RedMartSlugs[i] in catalog
    ensures JobList(catalog).Ok?
    ensures |JobList(catalog).value| == |Names()|
    ensures forall k :: 0 <= k < |Names()| ==> JobList(catalog).value[k].name == Names()[k]
    ensures JobList(catalog).value[0] == JobOf(catalog[ExampleSlug], "example", ExampleScraper)
    ensures forall i :: 0 <= i < |ColdStorageSlugs| ==>
              JobList(catalog).value[1 + i] == JobOf(catalog[ColdStorageSlugs[i]], ColdStorageSlugs[i], ColdStorageScraper)
    ensures forall i :: 0 <= i < |FairPriceSlugs| ==>
              JobList(catalog).value[1 + |ColdStorageSlugs| + i] == JobOf(catalog[FairPriceSlugs[i]], FairPriceSlugs[i], FairPriceScraper)
    ensures forall i :: 0 <= i < |RedMartSlugs| ==>
              JobList(catalog).value[1 + |ColdStorageSlugs| + |FairPriceSlugs| + i] == JobOf(catalog[RedMartSlugs[i]], RedMartSlugs[i], RedMartScraper)
  {
    BuildJobsExactly(catalog, ColdStorageSlugs, ColdStorageScraper);
    BuildJobsExactly(catalog, FairPriceSlugs, FairPriceScraper);
    BuildJobsExactly(catalog, RedMartSlugs, RedMartScraper);
    var example := JobOf(catalog[ExampleSlug], "example", ExampleScraper);
    var cs := BuildJobs(catalog, ColdStorageSlugs, ColdStorageScraper).value;
    var fp := BuildJobs(catalog, FairPriceSlugs, FairPriceScraper).value;
    var rm := BuildJobs(catalog, RedMartSlugs, RedMartScraper).value;
    assert JobList(catalog) == Ok([example] + cs + fp + rm);
    ConcatNames("example", ColdStorageSlugs, FairPriceSlugs, RedMartSlugs, example, cs, fp, rm);
  }

  /** Jobs named by their lists' names concatenate to jobs named by the
      concatenated names. */
  lemma ConcatNames(first: string, xs: seq<string>, ys: seq<string>, zs: seq<string>,
                    example: ScrapeJob, cs: seq<ScrapeJob>, fp: seq<ScrapeJob>, rm: seq<ScrapeJob>)
    requires example.name == first
    requires |cs| == |xs| && forall i :: 0 <= i < |xs| ==> cs[i].name == xs[i]
    requires |fp| == |ys| && forall i :: 0 <= i < |ys| ==> fp[i].name == ys[i]
    requires |rm| == |zs| && forall i :: 0 <= i < |zs| ==> rm[i].name == zs[i]
    ensures var jobs := [example] + cs + fp + rm;
            var names := [first] + xs + ys + zs;
            |jobs| == |names| && (forall k :: 0 <= k < |jobs| ==> jobs[k].name == names[k])
            && (forall i :: 0 <= i < |cs| ==> jobs[1 + i] == cs[i])
            && (forall i :: 0 <= i < |fp| ==> jobs[1 + |cs| + i] == fp[i])
            && (forall i :: 0 <= i < |rm| ==> jobs[1 + |cs| + |fp| + i] == rm[i])
  {
    var jobs := [example] + cs + fp + rm;
    var names := [first] + xs + ys + zs;
    forall k | 0 <= k < |jobs|
      ensures jobs[k].name == names[k]
    {
      if k == 0 {
      } else if k < 1 + |cs| {
        assert jobs[k] == cs[k - 1] && names[k] == xs[k - 1];
      } else if k < 1 + |cs| + |fp| {
        assert jobs[k] == fp[k - 1 - |cs|] && names[k] == ys[k - 1 - |cs|];
      } else {
        assert jobs[k] == rm[k - 1 - |cs| - |fp|] && names[k] == zs[k - 1 - |cs| - |fp|];
      }
    }
  }

  /** Jobs named by distinct names are keyed by exactly those names, each
      under its own. */
  lemma KeyedByNames(jobs: seq<ScrapeJob>, names: seq<string>)
    requires |jobs| == |names| && forall k :: 0 <= k < |jobs| ==> jobs[k].name == names[k]
    requires forall i, j :: 0 <= i < j < |names| ==> names[i] != names[j]
    ensures |ByName(jobs)| == |jobs|
    ensures forall k :: k in ByName(jobs) <==> k in names
    ensures forall j :: j in jobs ==> j.name in ByName(jobs) && ByName(jobs)[j.name] == j
  {
    ByNameDistinct(jobs);
    ByNameExactly(jobs);
    forall k
      ensures k in ByName(jobs) <==> k in names
    {
      if k in names {
        var i :| 0 <= i < |names| && names[i] == k;
        assert jobs[i].name == k;
      }
    }
    forall j | j in jobs
      ensures j.name in ByName(jobs) && ByName(jobs)[j.name] == j
    {
      var i :| 0 <= i < |jobs| && jobs[i] == j;
    }
  }

  /** Building the registry raises nothing; it holds 25 jobs, keyed by
      exactly the listed names, and `get_job` finds every listed job under
      its name and raises KeyError for any other name. */
  lemma RegistryExactly()
    ensures ScrapeJobs().Ok? && ListJobs().Ok?
    ensures |ListJobs().value| == |ScrapeJobs().value| == 25
    ensures forall k :: k in ScrapeJobs().value <==> k in Names()
    ensures forall j :: j in ListJobs().value ==> GetJob(j.name) == Ok(j)
    ensures forall name :: name !in Names() ==> GetJob(name) == Err("KeyError")
  {
    RegistryBuilt();
    NamesDistinct();
    var jobs := ListJobs().value;
    KeyedByNames(jobs, Names());
    assert ScrapeJobs() == Ok(ByName(jobs));
  }

  /** The job list builds, and its jobs carry the 25 names in order. */
  lemma RegistryBuilt()
    ensures ListJobs().Ok?
    ensures |ListJobs().value| == |Names()| == 25
    ensures forall k :: 0 <= k < |Names()| ==> ListJobs().value[k].name == Names()[k]
  {
    RowEntries();
    ColdStorageListed();
    FairPriceListed();
    RedMartListed();
    JobListNames(ProductCatalog());
  }

  /** With every listed slug in the catalog, the job list builds and its
      jobs carry the names in order. */
  lemma JobListNames(catalog: map<string, ProductConfig>)
    requires ExampleSlug in catalog
    requires forall i :: 0 <= i < |ColdStorageSlugs| ==> ColdStorageSlugs[i] in catalog
    requires forall i :: 0 <= i < |FairPriceSlugs| ==> FairPriceSlugs[i] in catalog
    requires forall i :: 0 <= i < |RedMartSlugs| ==> RedMartSlugs[i] in catalog
    ensures JobList(catalog).Ok?
    ensures |JobList(catalog).value| == |Names()| == 25
    ensures forall k :: 0 <= k < |Names()| ==> JobList(catalog).value[k].name == Names()[k]
  {
    JobListExactly(catalog);
  }

  /** `get_job` returns the example job built from the example entry. */
  lemma ExampleJob()
    ensures GetJob("example") == Ok(JobOf(ExampleConfig, "example", ExampleScraper))
  {
    RegistryExactly();
    RowEntries();
    ColdStorageListed();
    FairPriceListed();
    RedMartListed();
    JobListExactly(ProductCatalog());
    assert ListJobs().value[0] in ListJobs().value;
  }

  /** `get_job` returns, for each listed Cold Storage slug, the job built
      from that slug's catalog entry, run by the Cold Storage scraper. */
  lemma ColdStorageJobs()
    ensures forall i :: 0 <= i < |ColdStorageSlugs| ==>
              GetJob(ColdStorageSlugs[i]) == Ok(JobOf(ColdStorageConfig(ColdStorageRows[i]), ColdStorageSlugs[i], ColdStorageScraper))
  {
    RegistryExactly();
    RowEntries();
    ColdStorageListed();
    FairPriceListed();
    RedMartListed();
    JobListExactly(ProductCatalog());
    var jobs := ListJobs().value;
    forall i | 0 <= i < |ColdStorageSlugs|
      ensures GetJob(ColdStorageSlugs[i]) == Ok(JobOf(ColdStorageConfig(ColdStorageRows[i]), ColdStorageSlugs[i], ColdStorageScraper))
    {
      assert jobs[1 + i] in jobs;
    }
  }

  /** The same for the FairPrice slugs and scraper. */
  lemma FairPriceJobs()
    ensures forall i :: 0 <= i < |FairPriceSlugs| ==>
              GetJob(FairPriceSlugs[i]) == Ok(JobOf(FairPriceConfig(FairPriceRows[i]), FairPriceSlugs[i], FairPriceScraper))
  {
    RegistryExactly();
    RowEntries();
    ColdStorageListed();
    FairPriceListed();
    RedMartListed();
    JobListExactly(ProductCatalog());
    var jobs := ListJobs().value;
    forall i | 0 <= i < |FairPriceSlugs|
      ensures GetJob(FairPriceSlugs[i]) == Ok(JobOf(FairPriceConfig(FairPriceRows[i]), FairPriceSlugs[i], FairPriceScraper))
    {
      assert jobs[1 + |ColdStorageSlugs| + i] in jobs;
    }
  }

  /** The same for the RedMart slugs and scraper. */
  lemma RedMartJobs()
    ensures forall i :: 0 <= i < |RedMartSlugs| ==>
              GetJob(RedMartSlugs[i]) == Ok(JobOf(RedMartConfig(RedMartRows[i]), RedMartSlugs[i], RedMartScraper))
  {
    RegistryExactly();
    RowEntries();
    ColdStorageListed();
    FairPriceListed();
    RedMartListed();
    JobListExactly(ProductCatalog());
    var jobs := ListJobs().value;
    forall i | 0 <= i < |RedMartSlugs|
      ensures GetJob(RedMartSlugs[i]) == Ok(JobOf(RedMartConfig(RedMartRows[i]), RedMartSlugs[i], RedMartScraper))
    {
      assert jobs[1 + |ColdStorageSlugs| + |FairPriceSlugs| + i] in jobs;
    }
  }
}
