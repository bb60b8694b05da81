/** The FairPrice category-API scraper (bumboo-scraper/scrapers/fairprice.py):
    the numbered page loop, the collection lookup in a payload, price
    selection and the record fields. Fetched payloads are given already
    decoded, `pages[k]` being the payload served for page k + 1. */
module FairPrice {
  import opened Text
  import opened Models
  import P = PlyPattern

  /** One product of a collection. The price fields hold what `_safe_float`
      makes of the raw values; `storeMrps` lists the `mrp` of each
      `storeSpecificData` entry and `offerPrices` the `price` of each offer. */
  datatype Product = Product(
    name: string,
    slug: string,
    finalPrice: Option<real>,
    storeMrps: seq<Option<real>>,
    offerPrices: seq<Option<real>>,
    displayUnit: Option<string>,
    reviewTotal: Option<int>,
    reviewAverage: Option<real>)

  /** `pagination`, when present: its `total_pages`, if any. */
  datatype Pagination = Pagination(totalPages: Option<int>)

  /** A `collection` object: its `product` list and `pagination` when those
      keys are present, and whether it has any other key. */
  datatype Collection = Collection(product: Option<seq<Product>>, pagination: Option<Pagination>, otherKeys: bool)

  /** The `value` or `data` object of a layout: its `collection` when
      present, and whether it has any other key. */
  datatype Block = Block(collection: Option<Collection>, otherKeys: bool)

  datatype Layout = Layout(value: Option<Block>, data: Option<Block>)

  /** A decoded payload: `data.page.layouts`, or None when that path is missing. */
  datatype Payload = Payload(layouts: Option<seq<Layout>>)

  datatype Runtime = Runtime(resolve: (string, string) -> string, now: int)

  const ProductBase: string := "https://www.fairprice.com.sg/product/"

  // ---------------------------------------------------------------------
  // Collection lookup

  /** A JSON object is truthy when it has a key. */
  predicate CollectionTruthy(c: Collection)
  {
    c.product.Some? || c.pagination.Some? || c.otherKeys
  }

  predicate BlockTruthy(b: Option<Block>)
  {
    b.Some? && (b.value.collection.Some? || b.value.otherKeys)
  }

  /** The collection a layout contributes: `value or data`, when truthy,
      and its truthy `collection`. */
  function CollectionIn(layout: Layout): (r: Option<Collection>)
    ensures r.Some? ==> CollectionTruthy(r.value)
  {
    var block := if BlockTruthy(layout.value) then layout.value else layout.data;
    if !BlockTruthy(block) then None
    else match block.value.collection
      case Some(c) => if CollectionTruthy(c) then Some(c) else None
      case None => None
  }

  /** The collection of the first layout that has one. */
  function FirstCollection(layouts: seq<Layout>): Option<Collection>
  {
    if layouts == [] then None
    else if CollectionIn(layouts[0]).Some? then CollectionIn(layouts[0])
    else FirstCollection(layouts[1..])
  }

  /** What `_extract_collection` returns. */
  function CollectionOf(payload: Payload): Option<Collection>
  {
    match payload.layouts
    case None => None
    case Some(layouts) => FirstCollection(layouts)
  }

  /** `_extract_collection`: a search over the layouts with early return. */
  method ExtractCollection(payload: Payload) returns (r: Option<Collection>)
    ensures r == CollectionOf(payload)
  {
    if payload.layouts.None? {
      return None;
    }
    var layouts := payload.layouts.value;
    var i := 0;
    while i < |layouts|
      invariant 0 <= i <= |layouts|
      invariant FirstCollection(layouts[i..]) == FirstCollection(layouts)
    {
      assert layouts[i..][1..] == layouts[i + 1..];
      var layout := layouts[i];
      var block := if BlockTruthy(layout.value) then layout.value else layout.data;
      if !BlockTruthy(block) {
        i := i + 1;
        continue;
      }
      var collection := block.value.collection;
      if collection.Some? && CollectionTruthy(collection.value) {
        return collection;
      }
      i := i + 1;
    }
    return None;
  }

  /** The collection found is that of the first layout that has one, and
      there is none exactly when no layout has one (or there are no layouts). */
  lemma {:induction false} FirstCollectionExactly(layouts: seq<Layout>)
    ensures FirstCollection(layouts).None? <==> forall i :: 0 <= i < |layouts| ==> CollectionIn(layouts[i]).None?
    ensures FirstCollection(layouts).Some? ==>
              exists i :: 0 <= i < |layouts| && FirstCollection(layouts) == CollectionIn(layouts[i])
                          && forall j :: 0 <= j < i ==> CollectionIn(layouts[j]).None?
  {
    if layouts != [] && CollectionIn(layouts[0]).None? {
      var rest := layouts[1..];
      FirstCollectionExactly(rest);
      assert forall i :: 0 < i < |layouts| ==> layouts[i] == rest[i - 1];
      if FirstCollection(rest).Some? {
        var i :| 0 <= i < |rest| && FirstCollection(rest) == CollectionIn(rest[i])
                 && forall j :: 0 <= j < i ==> CollectionIn(rest[j]).None?;
        assert layouts[i + 1] == rest[i];
      } else {
        forall i | 0 <= i < |layouts|
          ensures CollectionIn(layouts[i]).None?
        {
          if i > 0 {
            assert layouts[i] == rest[i - 1];
          }
        }
      }
    }
  }

  /** A falsy `value` hands over to `data`: a layout whose `value` is an
      empty object still yields the collection held under `data`. */
  lemma DataWhenValueFalsy(layout: Layout, c: Collection)
    requires !BlockTruthy(layout.value)
    requires layout.data == Some(Block(Some(c), false)) && CollectionTruthy(c)
    ensures CollectionIn(layout) == Some(c)
  {
  }

  /** `collection.get("product", [])` */
  function Products(c: Collection): seq<Product>
  {
    if c.product.Some? then c.product.value else []
  }

  /** `(collection.get("pagination") or {}).get("total_pages", page)` */
  function TotalPages(c: Collection, page: int): int
  {
    match c.pagination
    case Some(Pagination(Some(total))) => total
    case _ => page
  }

  // ---------------------------------------------------------------------
  // Prices and records

  datatype Pricing = Pricing(price: Option<real>, listPrice: Option<real>, promotionPrice: Option<real>)

  /** A price is truthy when present and non-zero. */
  predicate PriceTruthy(p: Option<real>)
  {
    p.Some? && p.value != 0.0
  }

  /** `_extract_pricing` */
  function ExtractPricing(product: Product): Pricing
  {
    var listPrice := if product.storeMrps != [] then product.storeMrps[0] else None;
    if product.offerPrices == [] then Pricing(product.finalPrice, listPrice, None)
    else
      var promotion := product.offerPrices[0];
      Pricing(if PriceTruthy(promotion) then promotion else product.finalPrice, listPrice, promotion)
  }

  /** The price is the first offer's price when that is a non-zero number,
      and `final_price` otherwise (no offers, a missing price or 0); the
      list price is the first store entry's `mrp`. */
  lemma ExtractPricingExactly(product: Product)
    ensures var p := ExtractPricing(product);
            && (p.promotionPrice == if product.offerPrices != [] then product.offerPrices[0] else None)
            && (PriceTruthy(p.promotionPrice) ==> p.price == p.promotionPrice)
            && (!PriceTruthy(p.promotionPrice) ==> p.price == product.finalPrice)
            && (p.listPrice == if product.storeMrps != [] then product.storeMrps[0] else None)
  {
  }

  /** A zero offer falls back to the final price. */
  lemma ZeroOfferFallsBack(product: Product)
    requires product.offerPrices == [Some(0.0)] && product.finalPrice == Some(4.5)
    ensures ExtractPricing(product).price == Some(4.5)
    ensures ExtractPricing(product).promotionPrice == Some(0.0)
  {
  }

  /** `_extract_ply` */
  function ExtractPly(text: string): Option<string>
  {
    P.ExtractPly(text)
  }

  function MetaOption(value: Option<string>): MetaValue
  {
    match value
    case Some(s) => MetaText(s)
    case None => MetaOther
  }

  /** `_to_record` */
  function ToRecord(job: ScrapeJob, product: Product, rt: Runtime): ProductRecord
  {
    var name := Strip(product.name);
    var pricing := ExtractPricing(product);
    ProductRecord(
      brand := job.brand,
      description := name,
      site := job.siteName,
      size := product.displayUnit,
      ply := ExtractPly(name),
      price := pricing.price,
      totalReviews := product.reviewTotal,
      totalRating := product.reviewAverage,
      sourceUrl := rt.resolve(ProductBase, product.slug),
      metadata := map["job_description" := MetaText(job.description),
                      "raw_name" := MetaText(name),
                      "list_price" := MetaNumber(pricing.listPrice),
                      "promotion_price" := MetaNumber(pricing.promotionPrice),
                      "display_unit" := MetaOption(product.displayUnit),
                      "country_of_origin" := MetaOther,
                      "offers" := MetaOther],
      collectedAt := rt.now)
  }

  /** Brand and site come from the job whatever the product says; the size
      is the product's display unit; the ply count is read from the
      stripped name; the price is the selected one. */
  lemma ToRecordFields(job: ScrapeJob, product: Product, other: Product, rt: Runtime)
    ensures var r := ToRecord(job, product, rt);
            && r.brand == ToRecord(job, other, rt).brand == job.brand
            && r.site == ToRecord(job, other, rt).site == job.siteName
            && r.size == product.displayUnit
            && r.description == Strip(product.name)
            && r.ply == P.ExtractPly(Strip(product.name))
            && r.price == ExtractPricing(product).price
  {
  }

  // ---------------------------------------------------------------------
  // Page loop

  /** Records are taken from the payload: it has a collection with products. */
  predicate Reads(payload: Payload)
  {
    CollectionOf(payload).Some? && Products(CollectionOf(payload).value) != []
  }

  /** After reading `page`, the loop asks for the next page. */
  predicate Continues(payload: Payload, page: int)
  {
    Reads(payload) && page < TotalPages(CollectionOf(payload).value, page)
  }

  /** How many pages the loop reads records from, counting from index `k`
      (page k + 1). */
  function PagesRead(pages: seq<Payload>, k: nat): (n: nat)
    requires k <= |pages|
    ensures k <= n <= |pages|
    decreases |pages| - k
  {
    if k == |pages| || !Reads(pages[k]) then k
    else if !Continues(pages[k], k + 1) then k + 1
    else PagesRead(pages, k + 1)
  }

  /** The stop rule: every page read has products, every page read but the
      last asks for a next page, and the loop ends at a page without a
      collection or products, or at a page not below `total_pages`. */
  lemma {:induction false} PagesReadExactly(pages: seq<Payload>, k: nat)
    requires k <= |pages|
    ensures var n := PagesRead(pages, k);
            && (forall j :: k <= j < n ==> Reads(pages[j]))
            && (forall j :: k <= j < n - 1 ==> Continues(pages[j], j + 1))
            && (n < |pages| ==> !Reads(pages[n]) || (n > k && !Continues(pages[n - 1], n)))
    decreases |pages| - k
  {
    if k < |pages| && Continues(pages[k], k + 1) {
      PagesReadExactly(pages, k + 1);
    }
  }

  /** The products of `pages`, page after page. */
  function PageProducts(pages: seq<Payload>): seq<Product>
  {
    if pages == [] then []
    else PageProducts(pages[..|pages| - 1]) + (if Reads(pages[|pages| - 1]) then Products(CollectionOf(pages[|pages| - 1]).value) else [])
  }

  function RecordOf(job: ScrapeJob, rt: Runtime): Product -> ProductRecord
  {
    product => ToRecord(job, product, rt)
  }

  /** The records `_scrape` returns: every product of every page read, in
      page order and product order. */
  function Listing(job: ScrapeJob, pages: seq<Payload>, rt: Runtime): seq<ProductRecord>
  {
    MapSeq(RecordOf(job, rt), PageProducts(pages[..PagesRead(pages, 0)]))
  }

  /** `for item in products: records.append(_to_record(item))` */
  method AppendRecords<R>(toRecord: Product -> R, records: seq<R>, products: seq<Product>) returns (records': seq<R>)
    ensures records' == records + MapSeq(toRecord, products)
  {
    records' := records;
    var i := 0;
    while i < |products|
      invariant 0 <= i <= |products|
      invariant records' == records + MapSeq(toRecord, products[..i])
    {
      assert products[..i + 1][..i] == products[..i];
      records' := records' + [toRecord(products[i])];
      i := i + 1;
    }
    assert products[..i] == products;
  }

  /** Reading one more page appends its products. */
  lemma PageProductsStep(pages: seq<Payload>, k: nat)
    requires k < |pages| && Reads(pages[k])
    ensures PageProducts(pages[..k + 1]) == PageProducts(pages[..k]) + Products(CollectionOf(pages[k]).value)
  {
    assert pages[..k + 1][..k] == pages[..k];
  }

  /** `_scrape`: pages 1, 2, ... in turn; a job without `api_url` raises KeyError. */
  method Scrape(job: ScrapeJob, pages: seq<Payload>, rt: Runtime) returns (r: Result<seq<ProductRecord>>)
    ensures OptionOf(job, "api_url").None? ==> r == Err("KeyError")
    ensures OptionOf(job, "api_url").Some? ==> r == Ok(Listing(job, pages, rt))
  {
    if "api_url" !in job.options {
      return Err("KeyError");
    }
    var toRecord := RecordOf(job, rt);
    var page := 1;
    var records: seq<ProductRecord> := [];
    ghost var taken := 0;
    while page <= |pages|
      invariant 1 <= page <= |pages| + 1
      invariant taken == page - 1
      invariant PagesRead(pages, page - 1) == PagesRead(pages, 0)
      invariant records == MapSeq(toRecord, PageProducts(pages[..taken]))
      decreases |pages| + 1 - page
    {
      var collection := ExtractCollection(pages[page - 1]);
      if collection.None? {
        break;
      }
      var products := Products(collection.value);
      if products == [] {
        break;
      }
      PageProductsStep(pages, page - 1);
      MapSeqAppend(toRecord, PageProducts(pages[..page - 1]), products);
      records := AppendRecords(toRecord, records, products);
      taken := page;
      if page >= TotalPages(collection.value, page) {
        break;
      }
      page := page + 1;
    }
    assert taken == PagesRead(pages, 0);
    return Ok(records);
  }
}
