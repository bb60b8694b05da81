/** The records shared by all scrapers (models.py). */
module Models {
  import opened Text

  /** A metadata value: the scrapers store strings, optional prices, flags
      and raw payload fragments, which stay opaque here. */
  datatype MetaValue = MetaText(text: string) | MetaNumber(number: Option<real>) | MetaFlag(flag: bool) | MetaOther

  /** One scraped product observation. Prices and ratings are exact reals
      (floating point is not modelled); `collectedAt` is an abstract
      timestamp. */
  datatype ProductRecord = ProductRecord(
    brand: string,
    description: string,
    site: string,
    size: Option<string>,
    ply: Option<string>,
    price: Option<real>,
    totalReviews: Option<int>,
    totalRating: Option<real>,
    sourceUrl: string,
    metadata: map<string, MetaValue>,
    collectedAt: int)

  /** The scraper class a job is wired to. */
  datatype ScraperKind = ExampleScraper | ColdStorageScraper | FairPriceScraper | RedMartScraper

  datatype ScrapeJob = ScrapeJob(
    name: string,
    brand: string,
    description: string,
    siteName: string,
    scraper: ScraperKind,
    options: map<string, string>)

  /** `job.options.get(key)` */
  function OptionOf(job: ScrapeJob, key: string): Option<string>
  {
    if key in job.options then Some(job.options[key]) else None
  }

  /** `[f(x) for x in xs]` */
  function MapSeq<A, B>(f: A -> B, xs: seq<A>): (ys: seq<B>)
    ensures |ys| == |xs|
  {
    if xs == [] then [] else MapSeq(f, xs[..|xs| - 1]) + [f(xs[|xs| - 1])]
  }

  /** Element k of the result is `f` of element k of the input. */
  lemma {:induction false} MapSeqAt<A, B>(f: A -> B, xs: seq<A>)
    ensures forall k :: 0 <= k < |xs| ==> MapSeq(f, xs)[k] == f(xs[k])
  {
    if xs != [] {
      var init := xs[..|xs| - 1];
      MapSeqAt(f, init);
      assert forall k :: 0 <= k < |init| ==> xs[k] == init[k];
    }
  }

  /** Mapping distributes over concatenation. */
  lemma {:induction false} MapSeqAppend<A, B>(f: A -> B, xs: seq<A>, ys: seq<A>)
    ensures MapSeq(f, xs + ys) == MapSeq(f, xs) + MapSeq(f, ys)
  {
    if ys != [] {
      var init := ys[..|ys| - 1];
      MapSeqAppend(f, xs, init);
      assert (xs + ys)[..|xs + ys| - 1] == xs + init;
      assert (xs + ys)[|xs + ys| - 1] == ys[|ys| - 1];
      assert MapSeq(f, xs + ys) == MapSeq(f, xs + init) + [f(ys[|ys| - 1])];
    } else {
      assert xs + ys == xs;
    }
  }
}
