/** The RedMart brand-listing scraper (bumboo-scraper/scrapers/redmart.py):
    the page loop that keeps one record per item id, the next-page query,
    size and ply extraction, and the dataset filter. Fetched payloads are
    given already decoded, one per fetch, in fetch order. */
module RedMart {
  import opened Text
  import opened Models
  import P = PlyPattern

  /** `HOST` */
  const Host: string := "https://redmart.lazada.sg"

  /** The `description` field of a listing item: absent, a list of strings,
      or some other JSON value. */
  datatype DescriptionField = NoDescription | DescriptionList(lines: seq<string>) | DescriptionOther

  /** One listing item. `price`, `rating` and `reviews` are what
      `_parse_price`, `_safe_float` and `_safe_int` make of the raw fields. */
  datatype Item = Item(
    nid: Option<string>,
    itemId: Option<string>,
    name: Option<string>,
    productUrl: Option<string>,
    packageInfo: Option<string>,
    description: DescriptionField,
    price: Option<real>,
    rating: Option<real>,
    reviews: Option<int>)

  /** One decoded payload: `mods.listItems` (empty when missing),
      `seoInfo.nextHref`, the query pairs of that link in order, and
      `mainInfo.noMorePages`. */
  datatype Payload = Payload(
    items: seq<Item>,
    nextHref: Option<string>,
    nextQuery: seq<(string, string)>,
    noMorePages: bool)

  datatype Runtime = Runtime(resolve: (string, string) -> string, now: int)

  // ---------------------------------------------------------------------
  // Next page

  /** `dict(pairs)`: the last value given for a key wins. */
  function DictOf(pairs: seq<(string, string)>): map<string, string>
  {
    if pairs == [] then map[]
    else DictOf(pairs[..|pairs| - 1])[pairs[|pairs| - 1].0 := pairs[|pairs| - 1].1]
  }

  /** A key is in `dict(pairs)` exactly when some pair names it. */
  lemma {:induction false} DictOfKeys(pairs: seq<(string, string)>, key: string)
    ensures key in DictOf(pairs) <==> exists k :: 0 <= k < |pairs| && pairs[k].0 == key
  {
    if pairs != [] {
      var init := pairs[..|pairs| - 1];
      DictOfKeys(init, key);
      if exists k :: 0 <= k < |init| && init[k].0 == key {
        var k :| 0 <= k < |init| && init[k].0 == key;
        assert pairs[k] == init[k];
      }
      if exists k :: 0 <= k < |pairs| && pairs[k].0 == key {
        var k :| 0 <= k < |pairs| && pairs[k].0 == key;
        if k < |init| {
          assert init[k] == pairs[k];
        }
      }
    }
  }

  /** The value of a key is the one of the last pair naming it. */
  lemma {:induction false} DictOfLastWins(pairs: seq<(string, string)>, k: nat)
    requires k < |pairs|
    requires forall m :: k < m < |pairs| ==> pairs[m].0 != pairs[k].0
    ensures pairs[k].0 in DictOf(pairs) && DictOf(pairs)[pairs[k].0] == pairs[k].1
  {
    if k < |pairs| - 1 {
      var init := pairs[..|pairs| - 1];
      assert init[k] == pairs[k];
      forall m | k < m < |init|
        ensures init[m].0 != init[k].0
      {
        assert init[m] == pairs[m];
      }
      DictOfLastWins(init, k);
    }
  }

  /** The query of the next page's URL, or None when there is no next page.
      Parsing and re-serialising the URL are left to the URL library. */
  function NextQuery(payload: Payload): Option<map<string, string>>
  {
    if !Truthy(payload.nextHref) then None
    else
      var query := DictOf(payload.nextQuery)["ajax" := "true"];
      Some(if "m" in query then query else query["m" := "redmart"])
  }

  /** Without a `nextHref` there is no next page, whatever `noMorePages`
      says; with one, `ajax` is forced to "true", `m` defaults to "redmart",
      and every other key of the link's query is kept. */
  lemma NextQueryExactly(payload: Payload)
    ensures NextQuery(payload).None? <==> !Truthy(payload.nextHref)
    ensures NextQuery(payload).None? ==> NextQuery(payload.(noMorePages := !payload.noMorePages)).None?
    ensures NextQuery(payload).Some? ==>
              var q := NextQuery(payload).value;
              && q["ajax"] == "true"
              && q["m"] == (if "m" in DictOf(payload.nextQuery) then DictOf(payload.nextQuery)["m"] else "redmart")
              && q.Keys == DictOf(payload.nextQuery).Keys + {"ajax", "m"}
              && forall key :: key in DictOf(payload.nextQuery) && key != "ajax" && key != "m" ==>
                                 q[key] == DictOf(payload.nextQuery)[key]
  {
  }

  // ---------------------------------------------------------------------
  // Ply and size

  /** `_extract_ply` */
  function ExtractPly(text: string): Option<string>
  {
    P.ExtractDashedPly(text)
  }

  /** `s[k..]` starts with `w`, ignoring letter case (`w` is lower case). */
  predicate WordAt(s: string, k: nat, w: string)
    decreases |w|
  {
    k + |w| <= |s| && (w == [] || (LowerChar(s[k]) == w[0] && WordAt(s, k + 1, w[1..])))
  }

  /** Each character of a word found at `k` matches, ignoring case. */
  lemma {:induction false} WordAtChar(s: string, k: nat, w: string, m: nat)
    requires WordAt(s, k, w) && m < |w|
    ensures LowerChar(s[k + m]) == w[m]
    decreases m
  {
    if m > 0 {
      WordAtChar(s, k + 1, w[1..], m - 1);
    }
  }

  /** First space or comma at or after `i`, or the end. */
  function StopEnd(s: string, i: nat): (j: nat)
    requires i <= |s|
    ensures i <= j <= |s|
    ensures forall k :: i <= k < j ==> !IsSpace(s[k]) && s[k] != ','
    ensures j < |s| ==> IsSpace(s[j]) || s[j] == ','
    decreases |s| - i
  {
    if i < |s| && !IsSpace(s[i]) && s[i] != ',' then StopEnd(s, i + 1) else i
  }

  /** End of a match of the first size pattern, `\d+\s*(?:x|X)\s*\d+\s*[^\s,]+`,
      starting at `i`. When nothing but a comma or the end follows the
      second number, the regex gives its last digit back to `[^\s,]+`, so
      the match ends with that number, provided it has two digits or more. */
  function CountMatchEnd(s: string, i: nat): (r: Option<nat>)
    requires i <= |s|
    ensures r.Some? ==> i < r.value <= |s| && IsDigit(s[i]) && !IsSpace(s[r.value - 1])
  {
    if !(i < |s| && IsDigit(s[i])) then None
    else
      var k1 := P.RunEnd(s, P.RunEnd(s, i, true), false);
      if !(k1 < |s| && (s[k1] == 'x' || s[k1] == 'X')) then None
      else
        var k2 := P.RunEnd(s, k1 + 1, false);
        var j2 := P.RunEnd(s, k2, true);
        if j2 == k2 then None
        else
          var k3 := P.RunEnd(s, j2, false);
          var e := StopEnd(s, k3);
          if e > k3 then Some(e)
          else if j2 - k2 >= 2 then Some(j2)
          else None
  }

  /** `w` at `k` followed by an optional `s`, ignoring case. */
  function Plural(s: string, k: nat, w: string): (e: nat)
    requires WordAt(s, k, w) && w != [] && 'a' <= w[|w| - 1] <= 'z'
    ensures k + |w| <= e <= |s| && !IsSpace(s[e - 1])
  {
    var n := k + |w|;
    WordAtChar(s, k, w, |w| - 1);
    if n < |s| && LowerChar(s[n]) == 's' then n + 1 else n
  }

  /** End of the unit word of the second size pattern at `k`:
      `Rolls?|Sheets?|Boxes?|Packs?|pcs|Per\s+Pack`, ignoring case. The
      alternatives differ in their first two letters, so at most one applies. */
  function UnitEnd(s: string, k: nat): (r: Option<nat>)
    requires k <= |s|
    ensures r.Some? ==> k < r.value <= |s| && !IsSpace(s[r.value - 1])
  {
    if WordAt(s, k, "roll") then Some(Plural(s, k, "roll"))
    else if WordAt(s, k, "sheet") then Some(Plural(s, k, "sheet"))
    else if WordAt(s, k, "boxe") then Some(Plural(s, k, "boxe"))
    else if WordAt(s, k, "pack") then Some(Plural(s, k, "pack"))
    else if WordAt(s, k, "pcs") then
      WordAtChar(s, k, "pcs", 2);
      Some(k + 3)
    else if WordAt(s, k, "per") && k + 3 < |s| && IsSpace(s[k + 3]) && WordAt(s, P.RunEnd(s, k + 3, false), "pack") then
      var j := P.RunEnd(s, k + 3, false);
      WordAtChar(s, j, "pack", 3);
      Some(j + 4)
    else None
  }

  /** End of a match of the second size pattern, `\d+\s*(?:unit)`, at `i`. */
  function UnitMatchEnd(s: string, i: nat): (r: Option<nat>)
    requires i <= |s|
    ensures r.Some? ==> i < r.value <= |s| && IsDigit(s[i]) && !IsSpace(s[r.value - 1])
  {
    if !(i < |s| && IsDigit(s[i])) then None
    else UnitEnd(s, P.RunEnd(s, P.RunEnd(s, i, true), false))
  }

  /** Match end of `SIZE_PATTERNS[pattern]` at `i`. */
  function PatternEnd(s: string, i: nat, pattern: nat): (r: Option<nat>)
    requires i <= |s|
    ensures r.Some? ==> i < r.value <= |s| && IsDigit(s[i]) && !IsSpace(s[r.value - 1])
  {
    if pattern == 0 then CountMatchEnd(s, i) else UnitMatchEnd(s, i)
  }

  /** `pattern.search(s)` from `i`: the leftmost match, as (start, end). */
  function SearchFrom(s: string, i: nat, pattern: nat): (r: Option<(nat, nat)>)
    requires i <= |s|
    ensures r.Some? ==> i <= r.value.0 < r.value.1 <= |s| && PatternEnd(s, r.value.0, pattern) == Some(r.value.1)
    decreases |s| - i
  {
    if i == |s| then None
    else match PatternEnd(s, i, pattern)
      case Some(e) => Some((i, e))
      case None => SearchFrom(s, i + 1, pattern)
  }

  /** The pattern matches at no position of `[lo, hi)`. */
  predicate NoMatchBetween(s: string, lo: nat, hi: nat, pattern: nat)
    requires hi <= |s| + 1
    decreases hi - lo
  {
    lo >= hi || (PatternEnd(s, lo, pattern).None? && NoMatchBetween(s, lo + 1, hi, pattern))
  }

  /** No match in a range means no match at each of its positions. */
  lemma {:induction false} NoMatchAt(s: string, lo: nat, hi: nat, pattern: nat, k: nat)
    requires hi <= |s| + 1 && NoMatchBetween(s, lo, hi, pattern) && lo <= k < hi
    ensures PatternEnd(s, k, pattern).None?
    decreases k - lo
  {
    if k > lo {
      NoMatchAt(s, lo + 1, hi, pattern, k);
    }
  }

  /** The match found is the leftmost one: the pattern matches at no
      earlier position, and at none at all when nothing is found. */
  lemma {:induction false} SearchFromLeftmost(s: string, i: nat, pattern: nat)
    requires i <= |s|
    ensures SearchFrom(s, i, pattern).Some? ==> NoMatchBetween(s, i, SearchFrom(s, i, pattern).value.0, pattern)
    ensures SearchFrom(s, i, pattern).None? ==> NoMatchBetween(s, i, |s| + 1, pattern)
    decreases |s| - i
  {
    if i == |s| {
      assert PatternEnd(s, i, pattern).None?;
    } else if PatternEnd(s, i, pattern).None? {
      SearchFromLeftmost(s, i + 1, pattern);
    }
  }

  /** `match.group(1).strip()` for the first of the two patterns that matches. */
  function SizeIn(s: string): Option<string>
  {
    match SearchFrom(s, 0, 0)
    case Some((i, e)) => Some(Strip(s[i..e]))
    case None =>
      match SearchFrom(s, 0, 1)
      case Some((i, e)) => Some(Strip(s[i..e]))
      case None => None
  }

  /** `_extract_size`: a non-empty `packageInfo`, else a size in the name,
      else one in the description lines joined by spaces, else None. */
  function ExtractSize(item: Item): Option<string>
  {
    if Truthy(item.packageInfo) then item.packageInfo
    else
      match SizeIn(OrElse(item.name, ""))
      case Some(v) => Some(v)
      case None =>
        match item.description
        case DescriptionList(lines) => SizeIn(Join(lines, " "))
        case _ => None
  }

  /** The text of a match needs no strip, and starts with a digit. */
  lemma MatchTextShape(s: string, i: nat, pattern: nat)
    requires i <= |s| && PatternEnd(s, i, pattern).Some?
    ensures var t := s[i..PatternEnd(s, i, pattern).value]; Strip(t) == t && t != [] && IsDigit(t[0])
  {
    var t := s[i..PatternEnd(s, i, pattern).value];
    assert t[0] == s[i];
    StripNoOuterSpace(t);
  }

  /** A size found in text is the exact text of the leftmost match of the
      first pattern that matches anywhere: the final strip removes nothing,
      and the size starts with a digit. */
  lemma SizeInExactly(s: string)
    ensures SizeIn(s).None? <==> SearchFrom(s, 0, 0).None? && SearchFrom(s, 0, 1).None?
    ensures SearchFrom(s, 0, 0).Some? ==>
              SizeIn(s) == Some(s[SearchFrom(s, 0, 0).value.0..SearchFrom(s, 0, 0).value.1])
    ensures SearchFrom(s, 0, 0).None? && SearchFrom(s, 0, 1).Some? ==>
              SizeIn(s) == Some(s[SearchFrom(s, 0, 1).value.0..SearchFrom(s, 0, 1).value.1])
    ensures SizeIn(s).Some? ==> SizeIn(s).value != [] && IsDigit(SizeIn(s).value[0])
  {
    var pattern := if SearchFrom(s, 0, 0).Some? then 0 else 1;
    var f := SearchFrom(s, 0, pattern);
    if f.Some? {
      MatchTextShape(s, f.value.0, pattern);
    }
  }

  /** The order in which `_extract_size` looks for a size, and what it can
      return: the package info as given, or matched text that starts with a
      digit; nothing only when all three sources fail. */
  lemma SizePriority(item: Item)
    ensures Truthy(item.packageInfo) ==> ExtractSize(item) == item.packageInfo
    ensures !Truthy(item.packageInfo) && SizeIn(OrElse(item.name, "")).Some? ==>
              ExtractSize(item) == SizeIn(OrElse(item.name, ""))
    ensures !Truthy(item.packageInfo) && SizeIn(OrElse(item.name, "")).None? ==>
              ExtractSize(item) == (if item.description.DescriptionList? then SizeIn(Join(item.description.lines, " ")) else None)
    ensures ExtractSize(item).Some? && ExtractSize(item) != item.packageInfo ==>
              ExtractSize(item).value != [] && IsDigit(ExtractSize(item).value[0])
    ensures ExtractSize(item).None? <==>
              && !Truthy(item.packageInfo)
              && SearchFrom(OrElse(item.name, ""), 0, 0).None? && SearchFrom(OrElse(item.name, ""), 0, 1).None?
              && (item.description.DescriptionList? ==>
                    var joined := Join(item.description.lines, " ");
                    SearchFrom(joined, 0, 0).None? && SearchFrom(joined, 0, 1).None?)
  {
    SizeInExactly(OrElse(item.name, ""));
    if item.description.DescriptionList? {
      SizeInExactly(Join(item.description.lines, " "));
    }
  }

  /** "10x200" is a size although nothing follows the second number: the
      regex backtracks one digit into `[^\s,]+`. */
  lemma CountWithoutUnit(s: string)
    requires s == "10x200"
    ensures SizeIn(s) == Some("10x200")
  {
    assert P.RunEnd(s, 2, true) == 2;
    assert P.RunEnd(s, 1, true) == 2;
    assert P.RunEnd(s, 0, true) == 2;
    assert P.RunEnd(s, 2, false) == 2;
    assert P.RunEnd(s, 3, false) == 3;
    assert P.RunEnd(s, 6, true) == 6;
    assert P.RunEnd(s, 5, true) == 6;
    assert P.RunEnd(s, 4, true) == 6;
    assert P.RunEnd(s, 3, true) == 6;
    assert P.RunEnd(s, 6, false) == 6;
    assert StopEnd(s, 6) == 6;
    assert CountMatchEnd(s, 0) == Some(6);
    StripNoOuterSpace(s);
    assert s[0..6] == s;
  }

  /** A single box is no unit: `Boxes?` needs "boxe". */
  lemma SingularBoxIsNoSize(s: string)
    requires s == "1 Box"
    ensures SizeIn(s) == None
  {
    assert P.RunEnd(s, 1, true) == 1;
    assert P.RunEnd(s, 0, true) == 1;
    assert P.RunEnd(s, 2, false) == 2;
    assert P.RunEnd(s, 1, false) == 2;
    assert LowerChar(s[2]) == 'b' && LowerChar(s[3]) == 'o';
    assert UnitEnd(s, 2) == None;
    forall k | 0 <= k <= |s|
      ensures PatternEnd(s, k, 0).None? && PatternEnd(s, k, 1).None?
    {
      if k != 0 {
        assert k == |s| || !IsDigit(s[k]);
      }
    }
  }

  // ---------------------------------------------------------------------
  // Records

  /** `item.get("nid") or item.get("itemId")` */
  function Id(item: Item): Option<string>
  {
    Or(item.nid, item.itemId)
  }

  /** The metadata keys of `_to_record` other than `original_description`;
      the raw item fields stored under most of them are not modelled. */
  function Metadata(job: ScrapeJob, name: string): map<string, MetaValue>
  {
    map["job_description" := MetaText(job.description),
        "raw_name" := MetaText(name),
        "price_display" := MetaOther,
        "seller" := MetaOther,
        "item_sold" := MetaOther,
        "description" := MetaOther,
        "badges" := MetaOther,
        "categories" := MetaOther,
        "package_info" := MetaOther]
  }

  /** `_to_record` */
  function ToRecord(job: ScrapeJob, item: Item, rt: Runtime): (r: ProductRecord)
    ensures r.brand == job.brand && r.site == job.siteName
    ensures r.description == Strip(OrElse(item.name, ""))
    ensures "original_description" in r.metadata && r.metadata["original_description"] == MetaText(r.description)
    // a truthy job option wins over what the item says
    ensures Truthy(OptionOf(job, "size")) ==> r.size == OptionOf(job, "size")
    ensures !Truthy(OptionOf(job, "size")) ==> r.size == ExtractSize(item)
    ensures Truthy(OptionOf(job, "ply")) ==> r.ply == OptionOf(job, "ply")
    ensures !Truthy(OptionOf(job, "ply")) ==> r.ply == ExtractPly(r.description)
    // a protocol-relative link gets the https scheme; any other is resolved against the host
    ensures var url := OrElse(item.productUrl, "");
            && (StartsWith(url, "//") ==> r.sourceUrl == "https:" + url)
            && (!StartsWith(url, "//") ==> r.sourceUrl == rt.resolve(Host, url))
    ensures r.price == item.price && r.totalReviews == item.reviews && r.totalRating == item.rating
    ensures r.collectedAt == rt.now
  {
    var name := Strip(OrElse(item.name, ""));
    var url := OrElse(item.productUrl, "");
    ProductRecord(
      brand := job.brand,
      description := name,
      site := job.siteName,
      size := Or(OptionOf(job, "size"), ExtractSize(item)),
      ply := Or(OptionOf(job, "ply"), ExtractPly(name)),
      price := item.price,
      totalReviews := item.reviews,
      totalRating := item.rating,
      sourceUrl := if StartsWith(url, "//") then "https:" + url else rt.resolve(Host, url),
      metadata := Metadata(job, name)["original_description" := MetaText(name)],
      collectedAt := rt.now)
  }

  /** The truthy ids among `items`. */
  function IdsOf(items: seq<Item>): set<string>
  {
    if items == [] then {}
    else IdsOf(items[..|items| - 1]) + (if Truthy(Id(items[|items| - 1])) then {Id(items[|items| - 1]).value} else {})
  }

  /** The items the page loop keeps: those with a truthy id not seen before. */
  function Dedup(items: seq<Item>): seq<Item>
  {
    if items == [] then []
    else
      var last := items[|items| - 1];
      Dedup(items[..|items| - 1]) + (if Truthy(Id(last)) && Id(last).value !in IdsOf(items[..|items| - 1]) then [last] else [])
  }

  /** `id` is the truthy id of some item. */
  lemma {:induction false} IdsOfExactly(items: seq<Item>)
    ensures forall id :: id in IdsOf(items) <==> exists k :: 0 <= k < |items| && Id(items[k]) == Some(id) && id != []
  {
    if items != [] {
      var init := items[..|items| - 1];
      IdsOfExactly(init);
      forall id | id in IdsOf(items)
        ensures exists k :: 0 <= k < |items| && Id(items[k]) == Some(id) && id != []
      {
        if id in IdsOf(init) {
          var k :| 0 <= k < |init| && Id(init[k]) == Some(id) && id != [];
          assert items[k] == init[k];
        }
      }
      forall id | exists k :: 0 <= k < |items| && Id(items[k]) == Some(id) && id != []
        ensures id in IdsOf(items)
      {
        var k :| 0 <= k < |items| && Id(items[k]) == Some(id) && id != [];
        if k < |init| {
          assert items[k] == init[k];
        }
      }
    }
  }

  /** Adding one item to the input adds its id, if truthy, and keeps the
      item exactly when that id is new. */
  lemma DedupStep(items: seq<Item>, item: Item)
    ensures IdsOf(items + [item]) == IdsOf(items) + (if Truthy(Id(item)) then {Id(item).value} else {})
    ensures Dedup(items + [item]) == Dedup(items) + (if Truthy(Id(item)) && Id(item).value !in IdsOf(items) then [item] else [])
  {
    assert (items + [item])[..|items|] == items;
  }

  /** The kept items are taken from the input, carry truthy ids, and cover
      every truthy id of the input. */
  lemma {:induction false} DedupIds(items: seq<Item>)
    ensures IdsOf(Dedup(items)) == IdsOf(items)
    ensures forall k :: 0 <= k < |Dedup(items)| ==> Truthy(Id(Dedup(items)[k]))
  {
    if items != [] {
      var init := items[..|items| - 1];
      var last := items[|items| - 1];
      assert items == init + [last];
      DedupIds(init);
      DedupStep(init, last);
      var kept := if Truthy(Id(last)) && Id(last).value !in IdsOf(init) then [last] else [];
      DedupStep(Dedup(init), last);
      if kept == [] {
        assert Dedup(items) == Dedup(init);
      } else {
        assert Dedup(items) == Dedup(init) + [last];
      }
    }
  }

  /** No two kept items share an id. */
  lemma {:induction false} DedupDistinct(items: seq<Item>)
    ensures forall a, b :: 0 <= a < b < |Dedup(items)| ==> Id(Dedup(items)[a]) != Id(Dedup(items)[b])
  {
    if items != [] {
      var init := items[..|items| - 1];
      var last := items[|items| - 1];
      DedupDistinct(init);
      var d := Dedup(items);
      if Truthy(Id(last)) && Id(last).value !in IdsOf(init) {
        assert d == Dedup(init) + [last];
        DedupIds(init);
        IdsOfExactly(Dedup(init));
        forall a | 0 <= a < |d| - 1
          ensures Id(d[a]) != Id(last)
        {
          assert d[a] == Dedup(init)[a];
        }
      }
    }
  }

  /** Each kept item is the first item of the input with its id. */
  lemma {:induction false} DedupFirst(items: seq<Item>)
    ensures forall k :: 0 <= k < |Dedup(items)| ==>
              exists j :: 0 <= j < |items| && items[j] == Dedup(items)[k]
                          && forall m :: 0 <= m < j ==> Id(items[m]) != Id(items[j])
  {
    if items != [] {
      var init := items[..|items| - 1];
      var last := items[|items| - 1];
      DedupFirst(init);
      var d := Dedup(items);
      var isNew := Truthy(Id(last)) && Id(last).value !in IdsOf(init);
      assert d == Dedup(init) + (if isNew then [last] else []);
      forall k | 0 <= k < |d|
        ensures exists j :: 0 <= j < |items| && items[j] == d[k] && forall m :: 0 <= m < j ==> Id(items[m]) != Id(items[j])
      {
        if k < |Dedup(init)| {
          var j :| 0 <= j < |init| && init[j] == Dedup(init)[k] && forall m :: 0 <= m < j ==> Id(init[m]) != Id(init[j]);
          assert items[j] == init[j];
          assert d[k] == Dedup(init)[k];
          assert forall m :: 0 <= m < j ==> items[m] == init[m];
        } else {
          assert isNew && d[k] == last;
          IdsOfExactly(init);
          forall m | 0 <= m < |init|
            ensures Id(items[m]) != Id(last)
          {
            assert items[m] == init[m];
          }
          assert items[|init|] == last;
        }
      }
    } else {
      assert Dedup(items) == [];
    }
  }

  /** The items of pages, page after page. */
  function Flatten(pages: seq<Payload>): seq<Item>
  {
    if pages == [] then [] else Flatten(pages[..|pages| - 1]) + pages[|pages| - 1].items
  }

  /** How many of the fetched pages the loop reads items from, counting
      from page `k`: it stops at a page without items (taking nothing from
      it) or after a page without a next link. */
  function PagesTaken(pages: seq<Payload>, k: nat): (n: nat)
    requires k <= |pages|
    ensures k <= n <= |pages|
    decreases |pages| - k
  {
    if k == |pages| || pages[k].items == [] then k
    else if NextQuery(pages[k]).None? then k + 1
    else PagesTaken(pages, k + 1)
  }

  /** The stop rule of the page loop: every page taken has items, every
      page taken but the last has a next link, and the loop ends at the
      first page without items or right after a page without a next link. */
  lemma {:induction false} PagesTakenExactly(pages: seq<Payload>, k: nat)
    requires k <= |pages|
    ensures var n := PagesTaken(pages, k);
            && (forall j :: k <= j < n ==> pages[j].items != [])
            && (forall j :: k <= j < n - 1 ==> NextQuery(pages[j]).Some?)
            && (n < |pages| ==> pages[n].items == [] || (n > k && NextQuery(pages[n - 1]).None?))
    decreases |pages| - k
  {
    if k < |pages| && pages[k].items != [] && NextQuery(pages[k]).Some? {
      PagesTakenExactly(pages, k + 1);
    }
  }

  /** `_to_record` for one job and runtime. */
  function RecordOf(job: ScrapeJob, rt: Runtime): Item -> ProductRecord
  {
    item => ToRecord(job, item, rt)
  }

  /** The records the page loop collects from the fetched pages, before the dataset filter. */
  function ListingRecords(job: ScrapeJob, pages: seq<Payload>, rt: Runtime): seq<ProductRecord>
  {
    MapSeq(RecordOf(job, rt), Dedup(Flatten(pages[..PagesTaken(pages, 0)])))
  }

  /** One item more: its record is added exactly when the item is kept. */
  lemma RecordsStep<R>(toRecord: Item -> R, prefix: seq<Item>, item: Item)
    ensures Truthy(Id(item)) && Id(item).value !in IdsOf(prefix) ==>
              MapSeq(toRecord, Dedup(prefix + [item])) == MapSeq(toRecord, Dedup(prefix)) + [toRecord(item)]
    ensures !(Truthy(Id(item)) && Id(item).value !in IdsOf(prefix)) ==>
              MapSeq(toRecord, Dedup(prefix + [item])) == MapSeq(toRecord, Dedup(prefix))
  {
    DedupStep(prefix, item);
    assert (Dedup(prefix) + [item])[..|Dedup(prefix)|] == Dedup(prefix);
    if !(Truthy(Id(item)) && Id(item).value !in IdsOf(prefix)) {
      assert Dedup(prefix + [item]) == Dedup(prefix);
    }
  }

  /** The inner loop of `_scrape` over one page's items: skip an item
      without a truthy id or with an id already seen, otherwise record it. */
  method AddItems<R>(toRecord: Item -> R, done: seq<Item>, items: seq<Item>, seen: set<string>, records: seq<R>)
    returns (seen': set<string>, records': seq<R>)
    requires seen == IdsOf(done) && records == MapSeq(toRecord, Dedup(done))
    ensures seen' == IdsOf(done + items) && records' == MapSeq(toRecord, Dedup(done + items))
  {
    seen', records' := seen, records;
    ghost var prefix := done;
    var i := 0;
    while i < |items|
      invariant 0 <= i <= |items|
      invariant prefix == done + items[..i]
      invariant seen' == IdsOf(prefix)
      invariant records' == MapSeq(toRecord, Dedup(prefix))
    {
      var item := items[i];
      DedupStep(prefix, item);
      RecordsStep(toRecord, prefix, item);
      var itemId := Id(item);
      if itemId.Some? && itemId.value != [] && itemId.value !in seen' {
        seen' := seen' + {itemId.value};
        records' := records' + [toRecord(item)];
      }
      prefix := prefix + [item];
      assert items[..i + 1] == items[..i] + [item];
      i := i + 1;
    }
    assert items[..i] == items;
  }

  /** The page loop of `_scrape`: `pages[k]` is the payload of the k-th fetch. */
  method CollectPages(job: ScrapeJob, pages: seq<Payload>, rt: Runtime) returns (records: seq<ProductRecord>)
    ensures records == ListingRecords(job, pages, rt)
  {
    records := [];
    var seen: set<string> := {};
    var k := 0;
    while k < |pages|
      invariant 0 <= k <= PagesTaken(pages, 0)
      invariant PagesTaken(pages, k) == PagesTaken(pages, 0)
      invariant seen == IdsOf(Flatten(pages[..k]))
      invariant records == MapSeq(RecordOf(job, rt), Dedup(Flatten(pages[..k])))
    {
      if pages[k].items == [] {
        break;
      }
      assert pages[..k + 1][..k] == pages[..k];
      seen, records := AddItems(RecordOf(job, rt), Flatten(pages[..k]), pages[k].items, seen, records);
      k := k + 1;
      if NextQuery(pages[k - 1]).None? {
        break;
      }
    }
  }

  // ---------------------------------------------------------------------
  // Dataset filter

  /** `_normalize_name`: None for a missing or empty value; otherwise runs
      of non-word characters become one space, then the result is stripped
      and lower-cased. */
  function NormalizeName(value: Option<string>): Option<string>
  {
    if !Truthy(value) then None else Some(Lower(Strip(CollapseNonWord(value.value))))
  }

  /** A normalised name has no outer whitespace and no upper-case letter,
      and keeps every word character of the input, lower-cased. */
  lemma NormalizeNameShape(value: Option<string>)
    ensures NormalizeName(value).None? <==> !Truthy(value)
    ensures NormalizeName(value).Some? ==>
              var n := NormalizeName(value).value;
              && (n == [] || (!IsSpace(n[0]) && !IsSpace(n[|n| - 1])))
              && (forall k :: 0 <= k < |n| ==> !('A' <= n[k] <= 'Z'))
              && WordChars(n) == Lower(WordChars(value.value))
  {
    if Truthy(value) {
      var t := Strip(CollapseNonWord(value.value));
      StripShape(CollapseNonWord(value.value));
      StripKeepsWordChars(CollapseNonWord(value.value));
      CollapseKeepsWordChars(value.value, 0, false);
      assert value.value[0..] == value.value;
      WordCharsLower(t);
      var n := Lower(t);
      if n != [] {
        assert n[0] == LowerChar(t[0]);
        assert n[|n| - 1] == LowerChar(t[|t| - 1]);
      }
    }
  }

  /** The record as `_filter_by_dataset` leaves it once it matched: the
      original description saved in the metadata, and the description
      replaced when a dataset description is set. */
  function Tagged(job: ScrapeJob, record: ProductRecord): ProductRecord
  {
    var tagged := record.(metadata := record.metadata["original_description" := MetaText(record.description)]);
    var overrideDesc := OptionOf(job, "dataset_description");
    if Truthy(overrideDesc) then tagged.(description := overrideDesc.value) else tagged
  }

  /** The record's normalised description contains the target. */
  predicate Hit(target: string, record: ProductRecord)
  {
    var n := NormalizeName(Some(record.description));
    Truthy(n) && Contains(n.value, target)
  }

  /** The tagged records that hit the target, in order. */
  function Hits(job: ScrapeJob, target: string, records: seq<ProductRecord>): seq<ProductRecord>
  {
    if records == [] then []
    else
      var last := records[|records| - 1];
      Hits(job, target, records[..|records| - 1]) + (if Hit(target, last) then [Tagged(job, last)] else [])
  }

  /** What `_filter_by_dataset` returns. */
  function Filtered(job: ScrapeJob, records: seq<ProductRecord>): seq<ProductRecord>
  {
    var target := NormalizeName(OptionOf(job, "dataset_product_name"));
    if !Truthy(target) then records
    else
      var hits := Hits(job, target.value, records);
      if hits != [] then hits else records
  }

  /** `_filter_by_dataset`, on record values: the records it tags are also
      changed in the caller's list, which `_scrape` discards. */
  method FilterByDataset(job: ScrapeJob, records: seq<ProductRecord>) returns (result: seq<ProductRecord>)
    ensures result == Filtered(job, records)
  {
    var target := NormalizeName(OptionOf(job, "dataset_product_name"));
    if !(target.Some? && target.value != []) {
      return records;
    }
    var matched: seq<ProductRecord> := [];
    var i := 0;
    while i < |records|
      invariant 0 <= i <= |records|
      invariant matched == Hits(job, target.value, records[..i])
    {
      assert records[..i + 1][..i] == records[..i];
      var record := records[i];
      var normalizedDesc := NormalizeName(Some(record.description));
      if normalizedDesc.Some? && normalizedDesc.value != [] && Contains(normalizedDesc.value, target.value) {
        var tagged := record.(metadata := record.metadata["original_description" := MetaText(record.description)]);
        var descOverride := OptionOf(job, "dataset_description");
        if descOverride.Some? && descOverride.value != [] {
          tagged := tagged.(description := descOverride.value);
        }
        matched := matched + [tagged];
      }
      i := i + 1;
    }
    assert records[..i] == records;
    if matched != [] {
      return matched;
    }
    return records;
  }

  /** The hits keep the order of the input, one per matching record, each
      the tagged form of that record; nothing else changes in it. */
  lemma {:induction false} HitsExactly(job: ScrapeJob, target: string, records: seq<ProductRecord>)
    ensures |Hits(job, target, records)| <= |records|
    ensures forall y :: y in Hits(job, target, records) <==> exists x :: x in records && Hit(target, x) && y == Tagged(job, x)
  {
    if records != [] {
      var init := records[..|records| - 1];
      var last := records[|records| - 1];
      HitsExactly(job, target, init);
      assert records == init + [last];
    }
  }

  lemma {:induction false} HitsPickOut(job: ScrapeJob, target: string, records: seq<ProductRecord>)
    ensures PicksOut(Hits(job, target, records), records, Positions(records, r => Hit(target, r)),
                     r => Hit(target, r), r => Tagged(job, r))
  {
    if records != [] {
      var n := |records| - 1;
      HitsPickOut(job, target, records[..n]);
      PicksOutGrow(Hits(job, target, records[..n]), records, Positions(records[..n], r => Hit(target, r)),
                   r => Hit(target, r), r => Tagged(job, r));
    }
  }

  /** The hits are the tagged records at increasing positions of the input,
      and those positions are exactly the records that hit: the input order
      is kept, with one entry per matching record. */
  lemma HitsInOrder(job: ScrapeJob, target: string, records: seq<ProductRecord>)
    ensures var idx, hits := Positions(records, r => Hit(target, r)), Hits(job, target, records);
            && |idx| == |hits|
            && (forall m :: 0 <= m < |idx| ==> Hit(target, records[idx[m]]) && hits[m] == Tagged(job, records[idx[m]]))
            && (forall m, m' :: 0 <= m < m' < |idx| ==> idx[m] < idx[m'])
            && (forall i :: 0 <= i < |records| ==> (i in idx <==> Hit(target, records[i])))
  {
    HitsPickOut(job, target, records);
  }

  /** A tagged record keeps its pre-override description in the metadata,
      and only description and metadata differ from the input. */
  lemma TaggedKeepsOriginal(job: ScrapeJob, record: ProductRecord)
    ensures Tagged(job, record).metadata["original_description"] == MetaText(record.description)
    ensures Tagged(job, record).(description := record.description, metadata := record.metadata) == record
    ensures Tagged(job, record).description ==
              if Truthy(OptionOf(job, "dataset_description")) then job.options["dataset_description"] else record.description
  {
  }

  /** No usable target, or no hit, leaves the list exactly as it was. */
  lemma FilterKeepsListWithoutHits(job: ScrapeJob, records: seq<ProductRecord>)
    ensures var target := NormalizeName(OptionOf(job, "dataset_product_name"));
            (!Truthy(target) || forall x :: x in records ==> !Hit(target.value, x)) ==> Filtered(job, records) == records
  {
    var target := NormalizeName(OptionOf(job, "dataset_product_name"));
    if Truthy(target) && forall x :: x in records ==> !Hit(target.value, x) {
      NoHitsNoneKept(job, target.value, records);
    }
  }

  lemma {:induction false} NoHitsNoneKept(job: ScrapeJob, target: string, records: seq<ProductRecord>)
    requires forall x :: x in records ==> !Hit(target, x)
    ensures Hits(job, target, records) == []
  {
    if records != [] {
      var n := |records| - 1;
      assert forall x :: x in records[..n] ==> x in records;
      NoHitsNoneKept(job, target, records[..n]);
      assert records[n] in records;
    }
  }

  /** `_scrape`: with a non-empty `api_url` the pages are read and filtered;
      otherwise a non-empty `url` selects the single-product page, which is
      not part of this model (None here); with neither, KeyError. */
  method Scrape(job: ScrapeJob, pages: seq<Payload>, rt: Runtime) returns (r: Result<Option<seq<ProductRecord>>>)
    ensures Truthy(OptionOf(job, "api_url")) ==> r == Ok(Some(Filtered(job, ListingRecords(job, pages, rt))))
    ensures !Truthy(OptionOf(job, "api_url")) && Truthy(OptionOf(job, "url")) ==> r == Ok(None)
    ensures !Truthy(OptionOf(job, "api_url")) && !Truthy(OptionOf(job, "url")) ==> r == Err("KeyError")
  {
    var apiUrl := OptionOf(job, "api_url");
    var productPage := OptionOf(job, "url");
    if apiUrl.Some? && apiUrl.value != [] {
      var records := CollectPages(job, pages, rt);
      var filtered := FilterByDataset(job, records);
      return Ok(Some(filtered));
    }
    if productPage.Some? && productPage.value != [] {
      return Ok(None);
    }
    return Err("KeyError");
  }
}
