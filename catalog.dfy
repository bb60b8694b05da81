/** The static product catalog (bumboo-scraper/scrapers/catalog.py): one
    configuration per brand and site, keyed by slug, and its two lookups.
    The entries are listed in the catalog's own order; those of one site
    share a shape, so each site's entries are written as rows of the
    values that differ between them. */
module Catalog {
  import opened Text
  import opened Models

  /** `ProductConfig` */
  datatype ProductConfig = ProductConfig(
    slug: string,
    brand: string,
    description: string,
    siteName: string,
    url: string,
    size: Option<string>,
    ply: Option<string>,
    extraOptions: map<string, string>)

  const ExampleSlug: string := "example-ultra-soft"

  const ExampleConfig: ProductConfig :=
    ProductConfig(
      ExampleSlug, "Example Brand", "Ultra Soft Mega Pack", "Example Store",
      "https://example.com/toilet-paper", Some("24 Mega Rolls"), Some("3"),
      map["total_reviews" := "1500", "total_rating" := "4.9", "price" := "24.99"])

  // ---------------------------------------------------------------------
  // Cold Storage

  datatype ColdStorageRow = ColdStorageRow(key: string, brand: string, proId: string)

  const ColdStorageCategory: string := "https://coldstorage.com.sg/en/category/100013-100174-101066/1.html?proCatId=1&proId="

  function ColdStorageConfig(row: ColdStorageRow): ProductConfig
  {
    ProductConfig(
      "coldstorage-" + row.key, row.brand, row.brand + " assortment at Cold Storage", "Cold Storage",
      ColdStorageCategory + row.proId, None, None, map[])
  }

  const ColdStorageRows: seq<ColdStorageRow> := [
    ColdStorageRow("kleenex", "Kleenex", "32643"),
    ColdStorageRow("nootrees", "Nootrees", "46847"),
    ColdStorageRow("paseo", "Paseo", "42272"),
    ColdStorageRow("pursoft", "Pursoft", "48698"),
    ColdStorageRow("vinda", "Vinda", "33232"),
    ColdStorageRow("tempo", "Tempo", "32949"),
    ColdStorageRow("cloversoft", "Cloversoft", "45287")
  ]

  // ---------------------------------------------------------------------
  // FairPrice

  /** `key` is the lower-case brand used in the slug and in both brand filters. */
  datatype FairPriceRow = FairPriceRow(key: string, brand: string, description: string)

  const FairPriceCategory: string := "https://www.fairprice.com.sg/category/bathroom-tissues?filter=brand%3A"

  /** The personalisation flags and the experiment flags sent with every
      FairPrice category request, joined by an encoded comma. */
  const FairPriceAlgoPers: seq<string> := ["prm-ppb-1", "prm-ep-1", "t-epds-1", "t-ppb-0", "t-ep-0"]

  const FairPriceExperiments: seq<string> := [
    "ls_deltime-sortA", "searchVariant-B", "gv-A", "shelflife-B", "ds-A", "ls_comsl-B",
    "cartfiller-a", "catnav-hide", "catbubog-B", "sbanner-A", "count-b", "cam-a", "promobanner-c",
    "algopers-b", "dlv_pref_mf-B", "delivery_pref_ffs-C", "delivery_pref_pfc-C", "crtalc-B",
    "crt-v-wbble-A", "zero_search_swimlane-A", "sd-var-a", "slotIncentive-eco", "osmos-on", "gsc-a",
    "camp-lbl-B", "poa-entry-A"]

  /** The category API address up to the brand filter value. */
  const FairPriceApiHead: string :=
    "https://website-api.omni.fairprice.com.sg/api/layout/category/v2?"
    + "algopers=" + Join(FairPriceAlgoPers, "%2C") + "&category=bathroom-tissues&"
    + "experiments=" + Join(FairPriceExperiments, "%2C") + "&"

  const BrandFilter: string := "filter=brand%3A"

  /** The `{page}` placeholder the FairPrice scraper fills in. */
  const PagePlaceholder: string := "{page}"

  const FairPriceApiTail: string := "&includeTagDetails=true&orderType=DELIVERY&page=" + PagePlaceholder + "&url=bathroom-tissues"

  function FairPriceApiUrl(key: string): string
  {
    FairPriceApiHead + BrandFilter + key + FairPriceApiTail
  }

  function FairPriceConfig(row: FairPriceRow): ProductConfig
  {
    ProductConfig(
      "fairprice-" + row.key, row.brand, row.description, "FairPrice",
      FairPriceCategory + row.key, None, None, map["api_url" := FairPriceApiUrl(row.key)])
  }

  const FairPriceRows: seq<FairPriceRow> := [
    FairPriceRow("kleenex", "Kleenex", "Kleenex assortment at FairPrice"),
    FairPriceRow("paseo", "Paseo", "Paseo assortment at FairPrice"),
    FairPriceRow("pursoft", "Pursoft", "Pursoft assortment at FairPrice"),
    FairPriceRow("fairprice", "FairPrice", "FairPrice house-brand bathroom tissues"),
    FairPriceRow("beautex", "Beautex", "Beautex assortment at FairPrice"),
    FairPriceRow("neutra", "Neutra", "Neutra assortment at FairPrice"),
    FairPriceRow("cloversoft", "Cloversoft", "Cloversoft assortment at FairPrice"),
    FairPriceRow("nootrees", "Nootrees", "Nootrees assortment at FairPrice"),
    FairPriceRow("tempo", "Tempo", "Tempo assortment at FairPrice")
  ]

  // ---------------------------------------------------------------------
  // RedMart

  /** `urlPath` and `apiPath` are the category path segments of the page
      address and of the listing API address. */
  datatype RedMartRow = RedMartRow(key: string, brand: string, urlPath: string, apiPath: string)

  const RedMartCategory: string := "https://redmart.lazada.sg/shop-groceries-laundry-household-paper/"

  function RedMartConfig(row: RedMartRow): ProductConfig
  {
    ProductConfig(
      "redmart-" + row.key, row.brand, row.brand + " assortment at RedMart", "RedMart",
      RedMartCategory + row.urlPath + "?m=redmart", None, None,
      map["api_url" := RedMartCategory + row.apiPath + "?ajax=true&m=redmart"])
  }

  const RedMartRows: seq<RedMartRow> := [
    RedMartRow("tempo", "Tempo", "tem-po/", "tem-po/"),
    RedMartRow("kleenex", "Kleenex", "kleenex/", "kleenex/"),
    RedMartRow("pursoft", "Pursoft", "pursoft/", "pursoft/"),
    RedMartRow("vinda", "Vinda", "vin-da/", "vin-da/"),
    RedMartRow("beautex", "Beautex", "", "beautex/"),
    RedMartRow("paseo", "Paseo", "", "paseo_1/"),
    RedMartRow("cloversoft", "Cloversoft", "", "cloversoft/"),
    RedMartRow("nootrees", "Nootrees", "nootrees/", "nootrees/")
  ]

  // ---------------------------------------------------------------------
  // The catalog

  /** Every entry, in the order of the catalog's dictionary literal. */
  function Configs(): seq<ProductConfig>
  {
    [ExampleConfig] + MapSeq(ColdStorageConfig, ColdStorageRows) + MapSeq(FairPriceConfig, FairPriceRows)
    + MapSeq(RedMartConfig, RedMartRows)
  }

  /** A dictionary keyed by slug; a later entry with the same slug wins. */
  function BySlug(configs: seq<ProductConfig>): map<string, ProductConfig>
  {
    if configs == [] then map[]
    else BySlug(configs[..|configs| - 1])[configs[|configs| - 1].slug := configs[|configs| - 1]]
  }

  /** `PRODUCT_CATALOG` */
  function ProductCatalog(): map<string, ProductConfig>
  {
    BySlug(Configs())
  }

  /** `get_product`: the entry, or KeyError. */
  function GetProduct(slug: string): (r: Result<ProductConfig>)
    ensures r.Ok? <==> slug in ProductCatalog()
    ensures r.Err? ==> r.error == "KeyError"
  {
    if slug in ProductCatalog() then Ok(ProductCatalog()[slug]) else Err("KeyError")
  }

  /** `list_products`: the values in insertion order. */
  function ListProducts(): seq<ProductConfig>
  {
    Configs()
  }

  // ---------------------------------------------------------------------
  // Properties of the catalog

  /** A key is present exactly when some entry has it as slug; the entry
      stored under a key has that slug and is one of the listed entries. */
  lemma {:induction false} BySlugExactly(configs: seq<ProductConfig>)
    ensures forall k :: k in BySlug(configs) <==> exists i :: 0 <= i < |configs| && configs[i].slug == k
    ensures forall k :: k in BySlug(configs) ==> BySlug(configs)[k].slug == k && BySlug(configs)[k] in configs
  {
    if configs != [] {
      var init := configs[..|configs| - 1];
      BySlugExactly(init);
      assert forall i :: 0 <= i < |init| ==> configs[i] == init[i];
      assert forall c :: c in init ==> c in configs;
    }
  }

  /** With distinct slugs, every entry is stored under its slug, and there
      are as many keys as entries. */
  lemma {:induction false} BySlugDistinct(configs: seq<ProductConfig>)
    requires forall i, j :: 0 <= i < j < |configs| ==> configs[i].slug != configs[j].slug
    ensures forall c :: c in configs ==> c.slug in BySlug(configs) && BySlug(configs)[c.slug] == c
    ensures |BySlug(configs)| == |configs|
  {
    if configs != [] {
      var init := configs[..|configs| - 1];
      var last := configs[|configs| - 1];
      BySlugDistinct(init);
      BySlugExactly(init);
      assert last.slug !in BySlug(init);
      forall c | c in configs
        ensures c.slug in BySlug(configs) && BySlug(configs)[c.slug] == c
      {
        if c != last {
          var i :| 0 <= i < |configs| && configs[i] == c;
          assert c in init && c.slug != last.slug;
        }
      }
    }
  }

  /** The site name follows the slug prefix. */
  predicate SiteFollowsSlug(c: ProductConfig)
  {
    && (StartsWith(c.slug, "coldstorage-") ==> c.siteName == "Cold Storage")
    && (StartsWith(c.slug, "fairprice-") ==> c.siteName == "FairPrice")
    && (StartsWith(c.slug, "redmart-") ==> c.siteName == "RedMart")
  }

  /** The FairPrice listing address is the category API address filtered
      on the lower-cased brand. */
  predicate FairPriceApiReady(c: ProductConfig)
  {
    "api_url" in c.extraOptions && c.extraOptions["api_url"] == FairPriceApiUrl(Lower(c.brand))
  }

  /** What holds of every catalog entry. */
  predicate Consistent(c: ProductConfig)
  {
    && SiteFollowsSlug(c)
    && (c.size.Some? <==> c.slug == ExampleSlug)
    && (c.ply.Some? <==> c.slug == ExampleSlug)
    && (StartsWith(c.slug, "fairprice-") ==> FairPriceApiReady(c))
  }

  /** `p + s` starts with `p`. */
  lemma PrefixOfConcat(p: string, s: string)
    ensures StartsWith(p + s, p)
  {
    assert (p + s)[..|p|] == p;
  }

  /** A string that differs from `p` at an index below `|p|` neither starts
      with `p` nor equals it. */
  lemma DiffersAt(s: string, p: string, k: nat)
    requires k < |p| && k < |s| && s[k] != p[k]
    ensures !StartsWith(s, p) && s != p
  {
    if |p| <= |s| {
      assert s[..|p|][k] == s[k];
    }
  }

  lemma ExampleConsistent()
    ensures Consistent(ExampleConfig)
  {
    var s := ExampleSlug;
    DiffersAt(s, "coldstorage-", 0);
    DiffersAt(s, "fairprice-", 0);
    DiffersAt(s, "redmart-", 0);
  }

  lemma ColdStorageConsistent(row: ColdStorageRow)
    ensures Consistent(ColdStorageConfig(row))
  {
    var s := "coldstorage-" + row.key;
    PrefixOfConcat("coldstorage-", row.key);
    assert s[0] == 'c';
    DiffersAt(s, ExampleSlug, 0);
    DiffersAt(s, "fairprice-", 0);
    DiffersAt(s, "redmart-", 0);
  }

  lemma RedMartConsistent(row: RedMartRow)
    ensures Consistent(RedMartConfig(row))
  {
    var s := "redmart-" + row.key;
    PrefixOfConcat("redmart-", row.key);
    assert s[0] == 'r';
    DiffersAt(s, ExampleSlug, 0);
    DiffersAt(s, "fairprice-", 0);
    DiffersAt(s, "coldstorage-", 0);
  }

  /** An address assembled from a head, a filter name and value, and a tail
      around a placeholder contains both the filter and the placeholder. */
  lemma AddressParts(head: string, filter: string, value: string, front: string, placeholder: string, back: string)
    ensures Contains(head + filter + value + (front + placeholder + back), placeholder)
    ensures Contains(head + filter + value + (front + placeholder + back), filter + value)
  {
    var s := head + filter + value + (front + placeholder + back);
    assert s == (head + filter + value + front) + placeholder + back;
    ContainsInMiddle(head + filter + value + front, placeholder, back);
    assert s == head + (filter + value) + (front + placeholder + back);
    ContainsInMiddle(head, filter + value, front + placeholder + back);
  }

  /** The listing address of a FairPrice entry carries the page placeholder
      and the filter on its key. */
  lemma FairPriceApiParts(key: string)
    ensures Contains(FairPriceApiUrl(key), PagePlaceholder)
    ensures Contains(FairPriceApiUrl(key), BrandFilter + key)
  {
    AddressParts(FairPriceApiHead, BrandFilter, key, "&includeTagDetails=true&orderType=DELIVERY&page=", PagePlaceholder, "&url=bathroom-tissues");
  }

  lemma FairPriceConsistent(row: FairPriceRow)
    requires row.key == Lower(row.brand)
    ensures Consistent(FairPriceConfig(row))
  {
    var s := "fairprice-" + row.key;
    PrefixOfConcat("fairprice-", row.key);
    assert s[0] == 'f';
    DiffersAt(s, ExampleSlug, 0);
    DiffersAt(s, "redmart-", 0);
    DiffersAt(s, "coldstorage-", 0);
  }

  /** Lower-casing `brand` gives `key`. */
  lemma LowerTo(brand: string, key: string)
    requires |brand| == |key| && forall k :: 0 <= k < |key| ==> LowerChar(brand[k]) == key[k]
    ensures Lower(brand) == key
  {
  }

  lemma LowerBrands()
    ensures Lower("Kleenex") == "kleenex" && Lower("Paseo") == "paseo" && Lower("Pursoft") == "pursoft"
    ensures Lower("FairPrice") == "fairprice" && Lower("Beautex") == "beautex" && Lower("Neutra") == "neutra"
    ensures Lower("Cloversoft") == "cloversoft" && Lower("Nootrees") == "nootrees" && Lower("Tempo") == "tempo"
  {
    LowerTo("Kleenex", "kleenex");
    LowerTo("Paseo", "paseo");
    LowerTo("Pursoft", "pursoft");
    LowerTo("FairPrice", "fairprice");
    LowerTo("Beautex", "beautex");
    LowerTo("Neutra", "neutra");
    LowerTo("Cloversoft", "cloversoft");
    LowerTo("Nootrees", "nootrees");
    LowerTo("Tempo", "tempo");
  }

  /** The brand key of every FairPrice row is its lower-cased brand. */
  lemma FairPriceKeysAreLowerBrands()
    ensures forall i :: 0 <= i < |FairPriceRows| ==> FairPriceRows[i].key == Lower(FairPriceRows[i].brand)
  {
    LowerBrands();
  }

  predicate AllConsistent(configs: seq<ProductConfig>)
  {
    forall i :: 0 <= i < |configs| ==> Consistent(configs[i])
  }

  lemma AppendConsistent(xs: seq<ProductConfig>, ys: seq<ProductConfig>)
    requires AllConsistent(xs) && AllConsistent(ys)
    ensures AllConsistent(xs + ys)
  {
    forall i | 0 <= i < |xs + ys|
      ensures Consistent((xs + ys)[i])
    {
      if i < |xs| {
        assert (xs + ys)[i] == xs[i];
      } else {
        assert (xs + ys)[i] == ys[i - |xs|];
      }
    }
  }

  lemma ColdStorageAllConsistent(rows: seq<ColdStorageRow>)
    ensures AllConsistent(MapSeq(ColdStorageConfig, rows))
  {
    var configs := MapSeq(ColdStorageConfig, rows);
    MapSeqAt(ColdStorageConfig, rows);
    forall i | 0 <= i < |configs|
      ensures Consistent(configs[i])
    {
      ColdStorageConsistent(rows[i]);
      assert configs[i] == ColdStorageConfig(rows[i]);
    }
  }

  /** Every row's key is its lower-cased brand, stated along the rows. */
  predicate KeysLowered(rows: seq<FairPriceRow>)
  {
    rows == [] || (KeysLowered(rows[..|rows| - 1]) && rows[|rows| - 1].key == Lower(rows[|rows| - 1].brand))
  }

  lemma {:induction false} KeysLoweredFrom(rows: seq<FairPriceRow>)
    requires forall i :: 0 <= i < |rows| ==> rows[i].key == Lower(rows[i].brand)
    ensures KeysLowered(rows)
  {
    if rows != [] {
      var init := rows[..|rows| - 1];
      assert forall i :: 0 <= i < |init| ==> init[i] == rows[i];
      KeysLoweredFrom(init);
    }
  }

  lemma {:induction false} FairPriceAllConsistent(rows: seq<FairPriceRow>)
    requires KeysLowered(rows)
    ensures AllConsistent(MapSeq(FairPriceConfig, rows))
  {
    if rows != [] {
      var init, last := rows[..|rows| - 1], rows[|rows| - 1];
      FairPriceAllConsistent(init);
      FairPriceConsistent(last);
      AppendConsistent(MapSeq(FairPriceConfig, init), [FairPriceConfig(last)]);
    }
  }

  lemma RedMartAllConsistent(rows: seq<RedMartRow>)
    ensures AllConsistent(MapSeq(RedMartConfig, rows))
  {
    var configs := MapSeq(RedMartConfig, rows);
    MapSeqAt(RedMartConfig, rows);
    forall i | 0 <= i < |configs|
      ensures Consistent(configs[i])
    {
      RedMartConsistent(rows[i]);
      assert configs[i] == RedMartConfig(rows[i]);
    }
  }

  /** Every member of a list of consistent entries is consistent. */
  lemma FourConsistent(ws: seq<ProductConfig>, xs: seq<ProductConfig>, ys: seq<ProductConfig>, zs: seq<ProductConfig>)
    requires AllConsistent(ws) && AllConsistent(xs) && AllConsistent(ys) && AllConsistent(zs)
    ensures forall c :: c in ws + xs + ys + zs ==> Consistent(c)
  {
    AppendConsistent(ws, xs);
    AppendConsistent(ws + xs, ys);
    AppendConsistent(ws + xs + ys, zs);
    var all := ws + xs + ys + zs;
    forall c | c in all
      ensures Consistent(c)
    {
      var i :| 0 <= i < |all| && all[i] == c;
    }
  }

  /** Every entry of the catalog is consistent. */
  lemma ConfigsConsistent()
    ensures forall c :: c in Configs() ==> Consistent(c)
  {
    ExampleConsistent();
    assert AllConsistent([ExampleConfig]);
    ColdStorageAllConsistent(ColdStorageRows);
    FairPriceKeysAreLowerBrands();
    KeysLoweredFrom(FairPriceRows);
    FairPriceAllConsistent(FairPriceRows);
    RedMartAllConsistent(RedMartRows);
    FourConsistent([ExampleConfig], MapSeq(ColdStorageConfig, ColdStorageRows),
      MapSeq(FairPriceConfig, FairPriceRows), MapSeq(RedMartConfig, RedMartRows));
  }

  /** `coldstorage-` slugs belong to Cold Storage, `fairprice-` slugs to
      FairPrice and `redmart-` slugs to RedMart. */
  lemma SiteFollowsPrefix(slug: string)
    requires slug in ProductCatalog()
    ensures SiteFollowsSlug(ProductCatalog()[slug])
  {
    BySlugExactly(Configs());
    ConfigsConsistent();
  }

  /** Only the example entry sets a size or a ply count. */
  lemma OnlyExampleHasSizeAndPly(slug: string)
    requires slug in ProductCatalog()
    ensures ProductCatalog()[slug].size.Some? <==> slug == ExampleSlug
    ensures ProductCatalog()[slug].ply.Some? <==> slug == ExampleSlug
  {
    BySlugExactly(Configs());
    ConfigsConsistent();
  }

  /** Every FairPrice `api_url` carries the `{page}` placeholder and the
      filter on the lower-cased brand. */
  lemma FairPriceApiUrls(slug: string)
    requires slug in ProductCatalog() && StartsWith(slug, "fairprice-")
    ensures "api_url" in ProductCatalog()[slug].extraOptions
    ensures Contains(ProductCatalog()[slug].extraOptions["api_url"], PagePlaceholder)
    ensures Contains(ProductCatalog()[slug].extraOptions["api_url"], BrandFilter + Lower(ProductCatalog()[slug].brand))
  {
    BySlugExactly(Configs());
    ConfigsConsistent();
    FairPriceApiParts(Lower(ProductCatalog()[slug].brand));
  }

  // ---------------------------------------------------------------------
  // Distinct slugs

  predicate DistinctSlugs(configs: seq<ProductConfig>)
  {
    forall i, j :: 0 <= i < j < |configs| ==> configs[i].slug != configs[j].slug
  }

  /** Every slug is non-empty and starts with a character of `heads`. */
  predicate HeadsIn(configs: seq<ProductConfig>, heads: set<char>)
  {
    forall i :: 0 <= i < |configs| ==> |configs[i].slug| > 0 && configs[i].slug[0] in heads
  }

  lemma HeadsSingle(configs: seq<ProductConfig>, head: char)
    requires forall i :: 0 <= i < |configs| ==> |configs[i].slug| > 0 && configs[i].slug[0] == head
    ensures HeadsIn(configs, {head})
  {
  }

  /** Two lists with distinct slugs whose slugs start with different
      characters concatenate to a list with distinct slugs. */
  lemma AppendDistinct(xs: seq<ProductConfig>, ys: seq<ProductConfig>, a: set<char>, b: set<char>)
    requires DistinctSlugs(xs) && DistinctSlugs(ys)
    requires HeadsIn(xs, a) && HeadsIn(ys, b) && a !! b
    ensures DistinctSlugs(xs + ys) && HeadsIn(xs + ys, a + b)
  {
    forall i, j | 0 <= i < j < |xs + ys|
      ensures (xs + ys)[i].slug != (xs + ys)[j].slug
    {
      if j < |xs| {
        assert (xs + ys)[i] == xs[i] && (xs + ys)[j] == xs[j];
      } else if i < |xs| {
        assert (xs + ys)[i] == xs[i] && (xs + ys)[j] == ys[j - |xs|];
        assert xs[i].slug[0] in a && ys[j - |xs|].slug[0] in b;
      } else {
        assert (xs + ys)[i] == ys[i - |xs|] && (xs + ys)[j] == ys[j - |xs|];
      }
    }
    forall i | 0 <= i < |xs + ys|
      ensures |(xs + ys)[i].slug| > 0 && (xs + ys)[i].slug[0] in a + b
    {
      if i < |xs| {
        assert (xs + ys)[i] == xs[i];
      } else {
        assert (xs + ys)[i] == ys[i - |xs|];
      }
    }
  }

  /** Slugs `prefix + key` are distinct when the keys are, and start with
      the first character of the prefix. */
  lemma PrefixedSlugs(prefix: string, keys: seq<string>, configs: seq<ProductConfig>)
    requires prefix != [] && |configs| == |keys|
    requires forall i :: 0 <= i < |keys| ==> configs[i].slug == prefix + keys[i]
    requires forall i, j :: 0 <= i < j < |keys| ==> keys[i] != keys[j]
    ensures DistinctSlugs(configs)
    ensures forall i :: 0 <= i < |configs| ==> |configs[i].slug| > 0 && configs[i].slug[0] == prefix[0]
  {
    forall i, j | 0 <= i < j < |configs|
      ensures configs[i].slug != configs[j].slug
    {
      assert configs[i].slug[|prefix|..] == keys[i];
      assert configs[j].slug[|prefix|..] == keys[j];
    }
  }

  /** The keys of each site's rows are distinct. */
  lemma KeysDistinct()
    ensures forall i, j :: 0 <= i < j < |ColdStorageRows| ==> ColdStorageRows[i].key != ColdStorageRows[j].key
    ensures forall i, j :: 0 <= i < j < |FairPriceRows| ==> FairPriceRows[i].key != FairPriceRows[j].key
    ensures forall i, j :: 0 <= i < j < |RedMartRows| ==> RedMartRows[i].key != RedMartRows[j].key
  {
  }

  lemma ColdStorageSlugs(rows: seq<ColdStorageRow>)
    requires forall i, j :: 0 <= i < j < |rows| ==> rows[i].key != rows[j].key
    ensures DistinctSlugs(MapSeq(ColdStorageConfig, rows))
    ensures forall i :: 0 <= i < |rows| ==> |MapSeq(ColdStorageConfig, rows)[i].slug| > 0 && MapSeq(ColdStorageConfig, rows)[i].slug[0] == 'c'
  {
    MapSeqAt(ColdStorageConfig, rows);
    MapSeqAt((r: ColdStorageRow) => r.key, rows);
    PrefixedSlugs("coldstorage-", MapSeq((r: ColdStorageRow) => r.key, rows), MapSeq(ColdStorageConfig, rows));
    assert "coldstorage-"[0] == 'c';
  }

  lemma FairPriceSlugs(rows: seq<FairPriceRow>)
    requires forall i, j :: 0 <= i < j < |rows| ==> rows[i].key != rows[j].key
    ensures DistinctSlugs(MapSeq(FairPriceConfig, rows))
    ensures forall i :: 0 <= i < |rows| ==> |MapSeq(FairPriceConfig, rows)[i].slug| > 0 && MapSeq(FairPriceConfig, rows)[i].slug[0] == 'f'
  {
    MapSeqAt(FairPriceConfig, rows);
    MapSeqAt((r: FairPriceRow) => r.key, rows);
    PrefixedSlugs("fairprice-", MapSeq((r: FairPriceRow) => r.key, rows), MapSeq(FairPriceConfig, rows));
    assert "fairprice-"[0] == 'f';
  }

  lemma RedMartSlugs(rows: seq<RedMartRow>)
    requires forall i, j :: 0 <= i < j < |rows| ==> rows[i].key != rows[j].key
    ensures DistinctSlugs(MapSeq(RedMartConfig, rows))
    ensures forall i :: 0 <= i < |rows| ==> |MapSeq(RedMartConfig, rows)[i].slug| > 0 && MapSeq(RedMartConfig, rows)[i].slug[0] == 'r'
  {
    MapSeqAt(RedMartConfig, rows);
    MapSeqAt((r: RedMartRow) => r.key, rows);
    PrefixedSlugs("redmart-", MapSeq((r: RedMartRow) => r.key, rows), MapSeq(RedMartConfig, rows));
    assert "redmart-"[0] == 'r';
  }

  /** Four lists whose slugs are distinct and start with four different
      characters concatenate to a list with distinct slugs. */
  lemma FourDistinct(ws: seq<ProductConfig>, xs: seq<ProductConfig>, ys: seq<ProductConfig>, zs: seq<ProductConfig>)
    requires DistinctSlugs(ws) && DistinctSlugs(xs) && DistinctSlugs(ys) && DistinctSlugs(zs)
    requires HeadsIn(ws, {'e'}) && HeadsIn(xs, {'c'}) && HeadsIn(ys, {'f'}) && HeadsIn(zs, {'r'})
    ensures DistinctSlugs(ws + xs + ys + zs)
    ensures forall k :: |ws| <= k < |ws + xs + ys + zs| ==>
              |(ws + xs + ys + zs)[k].slug| > 0 && (ws + xs + ys + zs)[k].slug[0] in {'c', 'f', 'r'}
  {
    AppendDistinct(xs, ys, {'c'}, {'f'});
    AppendDistinct(xs + ys, zs, {'c', 'f'}, {'r'});
    AppendDistinct(ws, xs + ys + zs, {'e'}, {'c', 'f', 'r'});
    assert ws + (xs + ys + zs) == ws + xs + ys + zs;
    forall k | |ws| <= k < |ws + xs + ys + zs|
      ensures |(ws + xs + ys + zs)[k].slug| > 0 && (ws + xs + ys + zs)[k].slug[0] in {'c', 'f', 'r'}
    {
      assert (ws + xs + ys + zs)[k] == (xs + ys + zs)[k - |ws|];
    }
  }

  /** No two entries share a slug; all but the example belong to a site. */
  lemma SlugsDistinct()
    ensures DistinctSlugs(Configs())
    ensures forall k :: 1 <= k < |Configs()| ==> |Configs()[k].slug| > 0 && Configs()[k].slug[0] in {'c', 'f', 'r'}
  {
    var cs := MapSeq(ColdStorageConfig, ColdStorageRows);
    var fp := MapSeq(FairPriceConfig, FairPriceRows);
    var rm := MapSeq(RedMartConfig, RedMartRows);
    KeysDistinct();
    ColdStorageSlugs(ColdStorageRows);
    FairPriceSlugs(FairPriceRows);
    RedMartSlugs(RedMartRows);
    HeadsSingle([ExampleConfig], 'e');
    HeadsSingle(cs, 'c');
    HeadsSingle(fp, 'f');
    HeadsSingle(rm, 'r');
    FourDistinct([ExampleConfig], cs, fp, rm);
  }

  /** Every key equals the slug of its entry; the catalog has 25 entries,
      and `list_products` yields each of them once. */
  lemma CatalogExactly()
    ensures forall k :: k in ProductCatalog() ==> ProductCatalog()[k].slug == k
    ensures |ProductCatalog()| == |ListProducts()| == 25
    ensures forall c :: c in ListProducts() ==> GetProduct(c.slug) == Ok(c)
  {
    BySlugExactly(Configs());
    SlugsDistinct();
    BySlugDistinct(Configs());
  }

  /** `get_product` returns each row's entry for that entry's slug. */
  lemma RowEntries()
    ensures GetProduct(ExampleSlug) == Ok(ExampleConfig)
    ensures forall i :: 0 <= i < |ColdStorageRows| ==>
              GetProduct(ColdStorageConfig(ColdStorageRows[i]).slug) == Ok(ColdStorageConfig(ColdStorageRows[i]))
    ensures forall i :: 0 <= i < |FairPriceRows| ==>
              GetProduct(FairPriceConfig(FairPriceRows[i]).slug) == Ok(FairPriceConfig(FairPriceRows[i]))
    ensures forall i :: 0 <= i < |RedMartRows| ==>
              GetProduct(RedMartConfig(RedMartRows[i]).slug) == Ok(RedMartConfig(RedMartRows[i]))
  {
    CatalogExactly();
    var cs := MapSeq(ColdStorageConfig, ColdStorageRows);
    var fp := MapSeq(FairPriceConfig, FairPriceRows);
    var rm := MapSeq(RedMartConfig, RedMartRows);
    assert ListProducts() == [ExampleConfig] + cs + fp + rm;
    MapSeqAt(ColdStorageConfig, ColdStorageRows);
    MapSeqAt(FairPriceConfig, FairPriceRows);
    MapSeqAt(RedMartConfig, RedMartRows);
    forall i | 0 <= i < |ColdStorageRows|
      ensures ColdStorageConfig(ColdStorageRows[i]) in ListProducts()
    {
      assert cs[i] in cs;
    }
    forall i | 0 <= i < |FairPriceRows|
      ensures FairPriceConfig(FairPriceRows[i]) in ListProducts()
    {
      assert fp[i] in fp;
    }
    forall i | 0 <= i < |RedMartRows|
      ensures RedMartConfig(RedMartRows[i]) in ListProducts()
    {
      assert rm[i] in rm;
    }
  }
}
