# bumbootools: a verified model of the scrapers, the normaliser and the price API

bumbootools tracks toilet-paper prices at three Singapore grocers: Cold Storage, FairPrice and RedMart (Lazada).

- **Scrapers.** A static product catalog lists every brand/site combination. A registry turns each catalog entry into a scrape job. Three site scrapers turn web pages or JSON payloads into `ProductRecord`s.
- **Normaliser.** It reconciles scraped records with a hand-curated table of canonical (brand, description, size) triples, plus two keyword fallbacks.
- **Dataset script.** It runs the scraper runner once per dataset row.
- **Backend.** A small HTTP API serves stored prices, per-product summaries and a daily per-site price history.

The Dafny modules follow the source files one to one:

| module | file | source |
|---|---|---|
| `Text` | text.dfy | string helpers: `str.strip`, `str.lower`, `in`, `re.sub(r"[^\w]+", " ", s)`, `zfill`, `ljust`, `join` |
| `Models` | models.dfy | `ProductRecord`, `ScrapeJob` (bumboo-scraper/scrapers/models.py) |
| `Normalizer` | normalizer.dfy | scrapers/normalizer.py |
| `NormalizerCases` | normalizer_cases.dfy | concrete behaviours of the scrapers/normalizer.py table |
| `StubNormalizer` | stub_normalizer.dfy | bumboo-scraper/normalizer.py |
| `PlyPattern` | ply_pattern.dfy | the `(\d+)\s*ply` patterns of the three scrapers |
| `ColdStorage` | coldstorage.dfy | bumboo-scraper/scrapers/coldstorage.py |
| `FairPrice` | fairprice.dfy | bumboo-scraper/scrapers/fairprice.py |
| `RedMart` | redmart.dfy | bumboo-scraper/scrapers/redmart.py |
| `Catalog` | catalog.dfy | bumboo-scraper/scrapers/catalog.py |
| `Registry` | registry.dfy | bumboo-scraper/scrapers/registry.py |
| `RunDataset` | run_dataset.dfy | bumboo-scraper/scripts/run_dataset.py |
| `Backend` | backend.dfy | bumboo-ui/backend/main.py |

### Modelling conventions

- **Pure code.** Code that only computes, such as the matcher, the catalog, the registry, the price parsers and the size and ply extractors, becomes functions with lemmas.
- **Loops.** Each loop in the source becomes a Dafny `method` with a `while` or `for` loop. That method is proved equal to a specification function, and the properties are proved about that function. This covers:
  - `normalize_records`;
  - the Cold Storage card loop;
  - the FairPrice and RedMart page loops;
  - RedMart's dataset filter;
  - `_extract_collection`;
  - `_extract_size`'s token loop;
  - `_options_from_config`;
  - the dataset script's main loop;
  - the backend's filtering, grouping, bucketing and daily-series loops.
- **Outside world.** HTTP responses, HTML nodes, JSON payloads, `urljoin`, `float()`, `datetime.now()` and timestamp parsing are parameters. They appear as a `Runtime` record of functions, a `parse: string -> Option<Time>` function, and payloads given in fetch order.
- **Errors.** Exceptions become `Result` values (`Err("KeyError")`, `Err("ValueError")`, `Err("TypeError")`). Python's `x or y` on strings is `OrElse`.

### Behaviours of the normaliser worth knowing

- **`_clean` does not trim.** `_clean` (scrapers/normalizer.py:75-76) collapses non-word runs after `strip()` and trims nothing afterwards. A description ending in punctuation therefore ends in a space (`Normalizer.CleanKeepsTrailingSpace`).
- **Normalising is not stable.** The keyword tier rewrites a "Pursoft GreenTea Roll" listing to Green Tea / 24 x 180. A second pass sends that pair to row 27 ("100% Virgin Pulp Unscented", "24 x 1"), because the skeleton of "24 x 1" occurs in that of "24 x 180" (`NormalizerCases.SkeletonRewritesCanonicalPair`, `NormalizerCases.KeywordOutputNotStable`).
- **The first match wins over an exact size.** Kleenex "Ultra Soft Aloe" 22 x 190 takes row 13's size 20 x 190 through description containment, although row 15 has its exact size (`NormalizerCases.FirstMatchBeatsExactSize`).
- **Punctuation does not stop a match.** "Kleenex: Green-Tea!!" with no size cleans to "kleenex green tea " and is rewritten to row 18, Green Tea / 20 x 190 (`NormalizerCases.PunctuatedGreenTeaMatches`).
- **No failure containment.** `normalize_records` has no per-record exception handling, and the model has none either.

## Model

| member | source | states |
|---|---|---|
| Text.StripShape | scrapers/normalizer.py:76 | `strip()` returns a slice of its input with no outer whitespace, and everything it cut off is whitespace |
| Text.CollapseShape | bumboo-scraper/scrapers/redmart.py:320 | collapsing non-word runs leaves only word characters and single spaces, never longer than the input |
| Text.CollapseKeepsWordChars | bumboo-scraper/scrapers/redmart.py:320 | collapsing keeps exactly the word characters of the input, in order |
| Text.CollapseEndsInSpace | scrapers/normalizer.py:76 | input ending in a non-word character collapses to text ending in a space (no trimming) |
| Text.CollapseSingleSpaced | scrapers/normalizer.py:76 | text that is already word characters separated by single spaces is unchanged |
| Text.ZFill | bumboo-scraper/scrapers/coldstorage.py:107 | `zfill(w)` pads with leading zeros to width `w`, keeping the input as suffix |
| Text.LJust | bumboo-scraper/scrapers/coldstorage.py:169 | `ljust(w, c)` pads on the right with `c` to width `w`, keeping the input as prefix |
| Normalizer.CleanShape | scrapers/normalizer.py:75-76 | `_clean` output has only word characters and single spaces, and the same word characters as the stripped, lower-cased input |
| Normalizer.CleanKeepsWordChar | scrapers/normalizer.py:75-76 | a word character occurs in `_clean(s)` iff it occurs in `s.strip().lower()` |
| Normalizer.CleanKeepsTrailingSpace | scrapers/normalizer.py:75-76 | `_clean` of text ending in punctuation ends in a space |
| Normalizer.SkeletonKeeps | scrapers/normalizer.py:98-99 | the digit/space/`x` skeleton holds only those characters and keeps every one of them |
| Normalizer.SkeletonOfSkeleton | scrapers/normalizer.py:98-99 | a string of skeleton characters is its own skeleton |
| Normalizer.KeyOfKey | scrapers/normalizer.py:87-91 | a lower-case string without outer whitespace is its own `.strip().lower()` key |
| Normalizer.FirstMatchFrom | scrapers/normalizer.py:108-109 | the result is the first rule (in table order) that matches, or None when none does |
| Normalizer.FirstKeywordMatchFrom | scrapers/normalizer.py:119-121 | the result is the first keyword rule that fires, or None when none does |
| Normalizer.NormalizeRecord | scrapers/normalizer.py:104-123 | a rewrite changes only description and size, and always sets a size |
| Normalizer.FirstTableRuleWins | scrapers/normalizer.py:108-115 | when row `i` is the first matching row, the record gets row `i`'s description and size |
| Normalizer.KeywordTierOnlyAfterTable | scrapers/normalizer.py:116-123 | with no table match, a record is rewritten iff some keyword rule fires, and then to that rule's pair |
| Normalizer.FirstKeywordRuleWins | scrapers/normalizer.py:116-122 | with no table match, the first firing keyword rule supplies the pair |
| Normalizer.CanonicalOutput | scrapers/normalizer.py:104-123 | every rewrite is the pair of a table row or keyword rule whose brand equals the record's (case-insensitively) |
| Normalizer.EmptySizeMatchesByDescription | scrapers/normalizer.py:85-101 | with no usable size, a rule matches iff the brands agree and the cleaned rule description occurs in the cleaned record description |
| Normalizer.DuplicateRowNeverChosen | scrapers/normalizer.py:62-63 | the last table row repeats the one before it and is never the first match |
| Normalizer.PartitionCount | scrapers/normalizer.py:126-135 | every input lands in exactly one of `matched` and `unmatched` |
| Normalizer.UnmatchedExactly | scrapers/normalizer.py:126-135 | a record is in `unmatched` iff it is an input that matches nothing |
| Normalizer.UnmatchedInOrder | scrapers/normalizer.py:126-135 | `unmatched` is the original inputs at strictly increasing positions, and those positions are exactly the inputs that match nothing: input order kept, one entry per unmatched input |
| Normalizer.MatchedExactly | scrapers/normalizer.py:126-135 | a record is in `matched` iff it is the rewritten form of some input that matches |
| Normalizer.MatchedInOrder | scrapers/normalizer.py:126-135 | `matched` is the rewritten forms of the inputs at strictly increasing positions, and those positions are exactly the inputs that match: input order kept, one entry per matching input |
| Normalizer.NormalizeRecords | scrapers/normalizer.py:126-135 | the loop builds the two lists in input order, and their lengths add up to the input's |
| NormalizerCases.OtherBrandRows | scrapers/normalizer.py:87-88 | the brand gate rejects every row whose brand key differs from the record's |
| NormalizerCases.DescriptionLacks | scrapers/normalizer.py:94-96 | a rule description with a word character missing from the record's cannot be contained in it |
| NormalizerCases.CanonicalSize | scrapers/normalizer.py:90-99 | a size of digits, `x`s and inner spaces is its own key, lower-case form and skeleton |
| NormalizerCases.MatchByDescription | scrapers/normalizer.py:85-101 | a rule of the record's brand whose description is the record's own matches it |
| NormalizerCases.MatchBySize | scrapers/normalizer.py:85-101 | a rule whose brand key and size key equal the record's (non-empty) ones matches it |
| NormalizerCases.RuleSkipsRecord | scrapers/normalizer.py:85-101 | a rule whose size neither equals nor is contained in the record's, and one of whose description characters the record's description lacks, does not match |
| NormalizerCases.AloeSkipsRow | scrapers/normalizer.py:85-101 | a Kleenex row with a different size skeleton and a description letter missing from "ultra soft aloe" does not match the Aloe 22 x 190 listing |
| NormalizerCases.KleenexSkipsRowsBefore13 | scrapers/normalizer.py:18-30 | no row before 13 matches the Kleenex Aloe 22 x 190 listing |
| NormalizerCases.AloeMatchesRows13And15 | scrapers/normalizer.py:31-33 | rows 13 and 15 both match that listing |
| NormalizerCases.FirstMatchBeatsExactSize | scrapers/normalizer.py:108-115 | the listing takes row 13's size 20 x 190 although row 15 has its exact size |
| NormalizerCases.BrandIgnoresCase | scrapers/normalizer.py:87-92 | "NOOTREES" with size 10 x 220 gets the NooTrees description |
| NormalizerCases.UnknownBrandUnmatched | scrapers/normalizer.py:104-135 | a brand not in the table is never rewritten and goes to `unmatched` unchanged |
| NormalizerCases.GreenTeaNotInRoll | scrapers/normalizer.py:94-96 | cleaned "green tea" does not occur in cleaned "Pursoft GreenTea Roll" |
| NormalizerCases.RollDescriptionGap | scrapers/normalizer.py:45-56 | no other Pursoft description is contained in that listing either |
| NormalizerCases.RollSkipsRow | scrapers/normalizer.py:85-101 | no Pursoft row matches the sizeless "Pursoft GreenTea Roll" |
| NormalizerCases.RollHasKeywords | scrapers/normalizer.py:119-121 | both keywords of the Green Tea rule occur in the lower-cased listing |
| NormalizerCases.PunctuatedGreenTeaMatches | scrapers/normalizer.py:75-96 | a Kleenex listing "Kleenex: Green-Tea!!" without size misses rows 0-17 and is rewritten to Green Tea / 20 x 190 by row 18 |
| NormalizerCases.KeywordFallback | scrapers/normalizer.py:116-123 | that listing is rewritten by the keyword tier to Green Tea / 24 x 180 |
| NormalizerCases.SkeletonMatchesRow27 | scrapers/normalizer.py:45 | row 27 (size "24 x 1") matches any Pursoft listing of size "24 x 180" |
| NormalizerCases.SkeletonContains | scrapers/normalizer.py:98-99 | the skeleton of "24 x 1" occurs in that of "24 x 180" |
| NormalizerCases.SkeletonRewritesCanonicalPair | scrapers/normalizer.py:97-100 | the canonical pair Green Tea / 24 x 180 is itself rewritten to row 27's pair |
| NormalizerCases.KeywordOutputNotStable | scrapers/normalizer.py:104-123 | normalising the keyword tier's output changes it again |
| StubNormalizer.NormalizeRecords | bumboo-scraper/normalizer.py:91-95 | every record is returned in `matched`, unchanged and in order; `unmatched` is empty |
| StubNormalizer.MatchedNoLonger | scrapers/normalizer.py:126-135 | the real `matched` list is never longer than the input |
| StubNormalizer.CanonicalMeansAgreement | bumboo-scraper/normalizer.py:87-95 | a batch of records the real normaliser leaves as they are is all `matched` with nothing `unmatched`, as in the stub |
| StubNormalizer.AgreementMeansCanonical | scrapers/normalizer.py:126-135 | if the real `matched` list equals the input, every record was already canonical |
| StubNormalizer.AgreesWithNormalizerExactly | bumboo-scraper/normalizer.py:87-95 | the stub agrees with the real normaliser on a batch iff every record of the batch is already canonical |
| PlyPattern.SearchFrom | bumboo-scraper/scrapers/coldstorage.py:129 | the search returns the leftmost position where `(\d+)\s*ply` matches, or None when none does |
| PlyPattern.ExtractPlyExactly | bumboo-scraper/scrapers/coldstorage.py:128-132 | a ply count is found iff the pattern occurs; it is the full digit run of the leftmost match |
| PlyPattern.ExtractPlySpaced | bumboo-scraper/scrapers/coldstorage.py:24 | the pattern allows spaces and any letter case before "ply" |
| PlyPattern.ExtractPlySkipsCount | bumboo-scraper/scrapers/coldstorage.py:24 | a digit run not followed by "ply" is passed over for a later one |
| PlyPattern.SearchEitherFrom | bumboo-scraper/scrapers/redmart.py:22 | leftmost position where either alternative of RedMart's pattern matches |
| PlyPattern.DashedFindsNoLater | bumboo-scraper/scrapers/redmart.py:191-197 | RedMart's pattern finds a ply count wherever the plain one does, and never later |
| PlyPattern.HyphenatedPly | bumboo-scraper/scrapers/redmart.py:22 | "3-ply" is found only by RedMart's pattern |
| ColdStorage.KeepNumericExactly | bumboo-scraper/scrapers/coldstorage.py:120-123 | the filter keeps every digit (and dot, if allowed), as many times as in the input, and nothing else |
| ColdStorage.KeepNumericEmpty | bumboo-scraper/scrapers/coldstorage.py:124-125 | the filter yields nothing iff the input has no such character |
| ColdStorage.SanitizeNumberExactly | bumboo-scraper/scrapers/coldstorage.py:114-126 | a missing node gives None (or "" when empty is allowed); an empty result is None unless empty is allowed |
| ColdStorage.SanitizedDigits | bumboo-scraper/scrapers/coldstorage.py:123 | a sanitised integer part is all digits |
| ColdStorage.PriceTextShape | bumboo-scraper/scrapers/coldstorage.py:100-107 | a card price exists iff the dollar text has a digit; it is then digits, a dot and at least two cents digits |
| ColdStorage.PriceLinePartsShape | bumboo-scraper/scrapers/coldstorage.py:163-172 | on digit parts the detail price is missing iff both parts are empty, and is otherwise a decimal with two or more fraction digits |
| ColdStorage.PriceLineTextShape | bumboo-scraper/scrapers/coldstorage.py:158-174 | a detail price is missing iff there is no `.price` node or neither part has a digit |
| ColdStorage.LStripDotsOfDigits | bumboo-scraper/scrapers/coldstorage.py:165-166 | the `lstrip(".")` never changes a sanitised fraction |
| ColdStorage.CentsPaddedOppositeWays | bumboo-scraper/scrapers/coldstorage.py:107 | a one-digit fraction "5" reads as 3.05 on a card and as 3.50 on a detail page |
| ColdStorage.DetailPriceWithoutWholePart | bumboo-scraper/scrapers/coldstorage.py:167-172 | a detail page with only a fraction still yields a price, with "0" in front |
| ColdStorage.LinePrice | bumboo-scraper/scrapers/coldstorage.py:109-112 | the line price raises iff its sanitised text is non-empty and not a decimal literal; it is None iff there is no node or no digit or dot |
| ColdStorage.TwoDotLinePriceRaises | bumboo-scraper/scrapers/coldstorage.py:109-112 | a line price with two dots survives sanitising and makes `float` raise |
| ColdStorage.DropBrand | bumboo-scraper/scrapers/coldstorage.py:135-137 | a leading brand, in any letter case, is cut off and the rest stripped; otherwise the name is kept |
| ColdStorage.NextSpace | bumboo-scraper/scrapers/coldstorage.py:25 | a size token runs to the first whitespace |
| ColdStorage.SizeTokens | bumboo-scraper/scrapers/coldstorage.py:138-143 | the loop keeps the size tokens that are not ply tokens, in order |
| ColdStorage.ExtractSize | bumboo-scraper/scrapers/coldstorage.py:134-145 | the method returns what `_extract_size` specifies for the name and brand |
| ColdStorage.PlyTokenByContentOnly | bumboo-scraper/scrapers/coldstorage.py:147-156 | on a whole token, only the "ply in token" test of `_is_ply_token` can fire |
| ColdStorage.SizeTokensGood | bumboo-scraper/scrapers/coldstorage.py:139-143 | every kept token starts with a digit and holds no whitespace and no "ply" |
| ColdStorage.JoinGoodTokens | bumboo-scraper/scrapers/coldstorage.py:144 | the joined tokens have no outer whitespace, so the `.strip()` changes nothing |
| ColdStorage.SizeOfExactly | bumboo-scraper/scrapers/coldstorage.py:134-145 | a size is found iff some non-ply token exists, and it is the tokens joined by spaces |
| ColdStorage.SeparatedPlyCountIsASize | bumboo-scraper/scrapers/coldstorage.py:147-156 | in "3 ply" the count "3" is kept as a size |
| ColdStorage.BrandAndPlyTokenDropped | bumboo-scraper/scrapers/coldstorage.py:134-145 | "KLEENEX 10x200 3ply" under brand Kleenex gives size "10x200" |
| ColdStorage.OptionsTakePrecedence | bumboo-scraper/scrapers/coldstorage.py:54-55 | non-empty size and ply options win over what the name says |
| ColdStorage.CardRecord | bumboo-scraper/scrapers/coldstorage.py:44-61 | a card record carries the job's brand and site and the card's name, and no reviews or rating |
| ColdStorage.RecordsOfExactly | bumboo-scraper/scrapers/coldstorage.py:37-63 | one record per named card, in card order, with that card's name and the job's brand and site |
| ColdStorage.ScrapeCards | bumboo-scraper/scrapers/coldstorage.py:37-63 | the loop raises ValueError iff some named card has a malformed line price, and otherwise returns those records |
| ColdStorage.DetailRecords | bumboo-scraper/scrapers/coldstorage.py:65-95 | a detail page gives one record iff it has an info block with title and price line, with the page url and the job's brand and site |
| ColdStorage.DetailDescription | bumboo-scraper/scrapers/coldstorage.py:75-85 | the detail record keeps the page title as original description and uses the dataset description when given |
| ColdStorage.Scrape | bumboo-scraper/scrapers/coldstorage.py:27-35 | a non-empty detail url selects the detail page; otherwise a missing `url` raises KeyError, else the card loop runs |
| FairPrice.CollectionIn | bumboo-scraper/scrapers/fairprice.py:64-69 | a layout's collection, when returned, is truthy |
| FairPrice.ExtractCollection | bumboo-scraper/scrapers/fairprice.py:58-70 | the search over layouts returns the collection `_extract_collection` specifies |
| FairPrice.FirstCollectionExactly | bumboo-scraper/scrapers/fairprice.py:63-70 | the result is the collection of the first layout that has one, and None iff no layout has one |
| FairPrice.DataWhenValueFalsy | bumboo-scraper/scrapers/fairprice.py:64 | a falsy `value` hands over to `data` |
| FairPrice.ExtractPricingExactly | bumboo-scraper/scrapers/fairprice.py:102-116 | price is the first offer's when non-zero, else `final_price`; list price is the first `mrp` |
| FairPrice.ZeroOfferFallsBack | bumboo-scraper/scrapers/fairprice.py:111-114 | a zero offer price falls back to `final_price` but stays the promotion price |
| FairPrice.ToRecordFields | bumboo-scraper/scrapers/fairprice.py:72-100 | brand and site come from the job; size is the display unit; ply comes from the stripped name; price is the selected one |
| FairPrice.PagesRead | bumboo-scraper/scrapers/fairprice.py:28-48 | the loop reads a number of pages between the start and the pages fetched |
| FairPrice.PagesReadExactly | bumboo-scraper/scrapers/fairprice.py:28-48 | every page read has products; each but the last is below `total_pages`; the loop stops at a page without products or at `total_pages` |
| FairPrice.AppendRecords | bumboo-scraper/scrapers/fairprice.py:40-42 | the records of a page are appended in product order |
| FairPrice.PageProductsStep | bumboo-scraper/scrapers/fairprice.py:36-42 | reading one more page appends its products |
| FairPrice.Scrape | bumboo-scraper/scrapers/fairprice.py:23-50 | no `api_url` raises KeyError; otherwise the result is every product of every page read, in order |
| RedMart.DictOfKeys | bumboo-scraper/scrapers/redmart.py:134 | a key is in `dict(parse_qsl(...))` iff some pair names it |
| RedMart.DictOfLastWins | bumboo-scraper/scrapers/redmart.py:134 | a repeated query key keeps its last value |
| RedMart.NextQueryExactly | bumboo-scraper/scrapers/redmart.py:125-138 | there is a next page iff `nextHref` is truthy, whatever `noMorePages` says; its query has `ajax=true`, and `m=redmart` unless given |
| RedMart.CountMatchEnd | bumboo-scraper/scrapers/redmart.py:24 | a match of the count pattern starts on a digit and ends after its start, on a non-space |
| RedMart.UnitMatchEnd | bumboo-scraper/scrapers/redmart.py:26 | a match of the unit pattern starts on a digit and ends after its start, on a non-space |
| RedMart.SearchFrom | bumboo-scraper/scrapers/redmart.py:205 | a match that `pattern.search` returns lies within the text and is a match of the pattern at its start |
| RedMart.SearchFromLeftmost | bumboo-scraper/scrapers/redmart.py:205 | the match returned is the leftmost: no position before it matches, and none at all matches when None is returned |
| RedMart.NoMatchAt | bumboo-scraper/scrapers/redmart.py:205 | a range without a match has no match at any of its positions |
| RedMart.MatchTextShape | bumboo-scraper/scrapers/redmart.py:207 | the matched text needs no strip and starts with a digit |
| RedMart.SizeInExactly | bumboo-scraper/scrapers/redmart.py:204-207 | a size is found in a text iff one pattern matches; it is the first pattern's leftmost match if any, else the second's |
| RedMart.SizePriority | bumboo-scraper/scrapers/redmart.py:199-215 | `packageInfo` wins, then a size in the name, then one in the joined description list; a size not taken from `packageInfo` starts with a digit; there is none iff no source yields one |
| RedMart.CountWithoutUnit | bumboo-scraper/scrapers/redmart.py:24 | "10x200" is a size though no unit follows the second number |
| RedMart.SingularBoxIsNoSize | bumboo-scraper/scrapers/redmart.py:26 | "1 Box" is no size: `Boxes?` needs "boxe" |
| RedMart.ToRecord | bumboo-scraper/scrapers/redmart.py:140-176 | a record carries the job's brand and site and the stripped name, which it also keeps as original description; a truthy `size` or `ply` option wins over the size extracted from the item and the ply found in the name; a `//` link gets `https:`, any other is resolved against the host; price, reviews, rating and timestamp come through unchanged |
| RedMart.IdsOfExactly | bumboo-scraper/scrapers/redmart.py:48-51 | the seen ids are exactly the truthy ids of the items |
| RedMart.DedupStep | bumboo-scraper/scrapers/redmart.py:47-52 | one more item is kept iff its id is truthy and unseen |
| RedMart.DedupIds | bumboo-scraper/scrapers/redmart.py:47-52 | the kept items have truthy ids and cover every id of the input |
| RedMart.DedupDistinct | bumboo-scraper/scrapers/redmart.py:47-52 | no two kept items share an id |
| RedMart.DedupFirst | bumboo-scraper/scrapers/redmart.py:47-52 | each kept item is the first item of the input with its id |
| RedMart.PagesTaken | bumboo-scraper/scrapers/redmart.py:40-54 | the loop reads a number of pages between the start and the pages fetched |
| RedMart.PagesTakenExactly | bumboo-scraper/scrapers/redmart.py:40-54 | every page read has items and each but the last has a next URL; the loop stops at a page without items or after a page without a next URL |
| RedMart.RecordsStep | bumboo-scraper/scrapers/redmart.py:47-52 | an item's record is added iff the item is kept |
| RedMart.AddItems | bumboo-scraper/scrapers/redmart.py:47-52 | after a page, the seen set and the records are those of the deduplicated items so far |
| RedMart.CollectPages | bumboo-scraper/scrapers/redmart.py:37-54 | the page loop collects the records of the deduplicated items of the pages read |
| RedMart.NormalizeNameShape | bumboo-scraper/scrapers/redmart.py:317-321 | a normalised name is None iff the value is falsy; otherwise it has no outer space and no upper-case letter, and its word characters are exactly those of the value, lower-cased |
| RedMart.FilterByDataset | bumboo-scraper/scrapers/redmart.py:323-339 | the loop returns what `_filter_by_dataset` specifies |
| RedMart.HitsInOrder | bumboo-scraper/scrapers/redmart.py:327-336 | the hits are the tagged records at strictly increasing positions of the input, and those positions are exactly the records that hit: order kept, one entry per match |
| RedMart.HitsExactly | bumboo-scraper/scrapers/redmart.py:327-336 | the hits are exactly the tagged forms of the records whose normalised description contains the target |
| RedMart.TaggedKeepsOriginal | bumboo-scraper/scrapers/redmart.py:331-335 | a hit keeps its old description in metadata and takes the override when given; nothing else changes |
| RedMart.FilterKeepsListWithoutHits | bumboo-scraper/scrapers/redmart.py:324-339 | no usable target, or no hit, returns the list unchanged |
| RedMart.Scrape | bumboo-scraper/scrapers/redmart.py:31-111 | with `api_url`, the pages are read and filtered; else with `url`, the product page; else KeyError |
| Catalog.GetProduct | bumboo-scraper/scrapers/catalog.py:352-357 | `get_product` succeeds iff the slug is a key, and otherwise raises KeyError |
| Catalog.BySlugExactly | bumboo-scraper/scrapers/catalog.py:25-349 | a key is present iff some entry has it as slug, and it maps to such an entry |
| Catalog.BySlugDistinct | bumboo-scraper/scrapers/catalog.py:25-349 | with distinct slugs, each entry is stored under its slug and none is lost |
| Catalog.ExampleConsistent | bumboo-scraper/scrapers/catalog.py:26-39 | the example entry is consistent |
| Catalog.ColdStorageConsistent | bumboo-scraper/scrapers/catalog.py:40-88 | a Cold Storage entry belongs to Cold Storage under a `coldstorage-` slug |
| Catalog.FairPriceConsistent | bumboo-scraper/scrapers/catalog.py:89-268 | a FairPrice entry belongs to FairPrice, and its `api_url` has the page placeholder and its brand filter |
| Catalog.FairPriceApiParts | bumboo-scraper/scrapers/catalog.py:256-266 | the API address carries `{page}` and `filter=brand%3A<key>` |
| Catalog.FairPriceKeysAreLowerBrands | bumboo-scraper/scrapers/catalog.py:89-268 | each FairPrice filter key is the lower-cased brand |
| Catalog.RedMartConsistent | bumboo-scraper/scrapers/catalog.py:269-348 | a RedMart entry belongs to RedMart and has an `api_url` |
| Catalog.ConfigsConsistent | bumboo-scraper/scrapers/catalog.py:25-349 | every catalog entry is consistent |
| Catalog.SiteFollowsPrefix | bumboo-scraper/scrapers/catalog.py:25-349 | the slug prefix names the entry's site |
| Catalog.OnlyExampleHasSizeAndPly | bumboo-scraper/scrapers/catalog.py:32-33 | only the example entry sets a size or a ply |
| Catalog.FairPriceApiUrls | bumboo-scraper/scrapers/catalog.py:255-266 | every FairPrice `api_url` has `{page}` and its lower-cased brand filter |
| Catalog.KeysDistinct | bumboo-scraper/scrapers/catalog.py:40-348 | each site's brand keys are distinct |
| Catalog.SlugsDistinct | bumboo-scraper/scrapers/catalog.py:25-349 | no two entries share a slug |
| Catalog.CatalogExactly | bumboo-scraper/scrapers/catalog.py:25-361 | each key is its entry's slug; there are 25 entries; `get_product` returns each listed entry |
| Catalog.RowEntries | bumboo-scraper/scrapers/catalog.py:352-357 | `get_product` returns each row's entry under that row's slug |
| Registry.OptionsFromConfig | bumboo-scraper/scrapers/registry.py:48-55 | the method builds the options `_options_from_config` specifies |
| Registry.OptionsExactly | bumboo-scraper/scrapers/registry.py:48-55 | `url` is always present; size and ply appear iff set or given as extra; extras override; no other key appears |
| Registry.BuildJob | bumboo-scraper/scrapers/registry.py:58-111 | building a job succeeds iff the slug is in the catalog, and otherwise raises KeyError |
| Registry.BuildJobsExactly | bumboo-scraper/scrapers/registry.py:82-115 | the jobs are built iff every slug is in the catalog; job `i` is named by slug `i` |
| Registry.ByNameExactly | bumboo-scraper/scrapers/registry.py:118-123 | a name is a key iff some job has it, and it maps to such a job |
| Registry.ByNameDistinct | bumboo-scraper/scrapers/registry.py:118-123 | with distinct names, each job is stored under its name and none is lost |
| Registry.ColdStorageSlugsAreRowSlugs | bumboo-scraper/scrapers/registry.py:14-22 | the listed slugs are the Cold Storage catalog slugs, in order |
| Registry.FairPriceSlugsAreRowSlugs | bumboo-scraper/scrapers/registry.py:24-34 | the listed slugs are the FairPrice catalog slugs, in order |
| Registry.RedMartSlugsAreRowSlugs | bumboo-scraper/scrapers/registry.py:36-45 | the listed slugs are the RedMart catalog slugs, in order |
| Registry.ColdStorageListed | bumboo-scraper/scrapers/registry.py:82-83 | every listed Cold Storage slug is in the catalog |
| Registry.FairPriceListed | bumboo-scraper/scrapers/registry.py:98-99 | every listed FairPrice slug is in the catalog |
| Registry.RedMartListed | bumboo-scraper/scrapers/registry.py:114-115 | every listed RedMart slug is in the catalog |
| Registry.NamesAreSlugs | bumboo-scraper/scrapers/registry.py:118-123 | after "example", the job names are the catalog slugs in catalog order |
| Registry.NamesDistinct | bumboo-scraper/scrapers/registry.py:118-123 | no two jobs share a name |
| Registry.JobListExactly | bumboo-scraper/scrapers/registry.py:118-123 | the job list is the example job and then one job per listed slug, each from its entry with its site's scraper |
| Registry.JobNamed | bumboo-scraper/scrapers/registry.py:126-131 | a lookup succeeds iff the name is registered, and otherwise raises KeyError |
| Registry.RegistryBuilt | bumboo-scraper/scrapers/registry.py:118-123 | the registry builds without a KeyError, with 25 jobs carrying the listed names in order |
| Registry.RegistryExactly | bumboo-scraper/scrapers/registry.py:118-135 | building raises nothing; 25 jobs; `get_job` returns each listed job and raises KeyError for any other name |
| Registry.ExampleJob | bumboo-scraper/scrapers/registry.py:58-67 | `get_job("example")` is the example entry's job |
| Registry.ColdStorageJobs | bumboo-scraper/scrapers/registry.py:70-83 | each Cold Storage slug's job is built from its entry with the Cold Storage scraper |
| Registry.FairPriceJobs | bumboo-scraper/scrapers/registry.py:86-99 | each FairPrice slug's job is built from its entry with the FairPrice scraper |
| Registry.RedMartJobs | bumboo-scraper/scrapers/registry.py:102-115 | each RedMart slug's job is built from its entry with the RedMart scraper |
| RunDataset.IterIndexesExactly | bumboo-scraper/scripts/run_dataset.py:17-28 | the range exists iff 0 <= start <= clamped end; it is then every index from start to end, ascending, all rows; otherwise the failing check's ValueError |
| RunDataset.EmptyDatasetRaises | bumboo-scraper/scripts/run_dataset.py:19-27 | with no rows, every run raises |
| RunDataset.DefaultRunsEveryRow | bumboo-scraper/scripts/run_dataset.py:20-23 | with no bounds, every row runs, in order |
| RunDataset.EndIsClamped | bumboo-scraper/scripts/run_dataset.py:22-23 | an end past the last row runs the same rows as no end |
| RunDataset.Decimal | bumboo-scraper/scripts/run_dataset.py:81 | `str(idx)` is non-empty |
| RunDataset.DecimalRoundTrip | bumboo-scraper/scripts/run_dataset.py:81 | `str(idx)` is digits without a leading zero and reads back as `idx` |
| RunDataset.BuildCommand | bumboo-scraper/scripts/run_dataset.py:76-91 | the method builds the runner command for the row |
| RunDataset.CommandShape | bumboo-scraper/scripts/run_dataset.py:76-91 | the command keeps the interpreter prefix and passes row, table and log level; the two flags appear iff set, dump first |
| RunDataset.JoinAsWritten | bumboo-scraper/scripts/run_dataset.py:92 | `' '.join` raises TypeError iff some element is a path object |
| RunDataset.AnnouncementAsWritten | bumboo-scraper/scripts/run_dataset.py:71-92 | with a virtual environment present, the first announcement raises TypeError; without one, it is the corrected text |
| RunDataset.VenvAnnouncementRaises | bumboo-scraper/scripts/run_dataset.py:71-92 | with the interpreter held as a path object, the join of the first announcement raises TypeError |
| RunDataset.PlainAnnouncement | bumboo-scraper/scripts/run_dataset.py:71-92 | with plain `python`, the join succeeds and gives the command's words separated by spaces |
| RunDataset.Commands | bumboo-scraper/scripts/run_dataset.py:75-91 | one command per index |
| RunDataset.CommandsAt | bumboo-scraper/scripts/run_dataset.py:75-91 | command `k` is the command for index `k` |
| RunDataset.AnnouncementsAt | bumboo-scraper/scripts/run_dataset.py:75-92 | announcement `k` names index `k` and its command |
| RunDataset.Run | bumboo-scraper/scripts/run_dataset.py:75-94 | a bad range raises its ValueError; otherwise each row is announced in order, and all are run unless this is a dry run |
| Backend.CompareDigest | bumboo-ui/backend/main.py:89-90 | `compare_digest` on strings raises `TypeError` iff either holds a non-ASCII character; otherwise it answers equality |
| Backend.RequireAuthExactly | bumboo-ui/backend/main.py:86-92 | a request proceeds iff both credentials are configured, all four strings are ASCII and both match; missing configuration is 500; a non-ASCII credential raises `TypeError` (an unhandled error, answered as 500); otherwise 401 with a Basic challenge |
| Backend.NonAsciiUserRaises | bumboo-ui/backend/main.py:89 | with a configured user "José", every request raises `TypeError` |
| Backend.LocalPrices | bumboo-ui/backend/main.py:164-185 | the fallback returns the matching rows, cut to `limit` |
| Backend.LocalPricesExactly | bumboo-ui/backend/main.py:164-185 | at most `limit` rows, all matching brand, site and date, in stored order, and every match when fewer than `limit` match |
| Backend.FirstKeysExactly | bumboo-ui/backend/main.py:256-271 | the group keys are distinct and are exactly the keys of the rows |
| Backend.AccSites | bumboo-ui/backend/main.py:272-276 | a group's count is its number of rows; its sites are its distinct truthy site names |
| Backend.AccPrices | bumboo-ui/backend/main.py:277-278 | a group's price list is its rows' numeric prices in row order, with repeats (`NumericPrices`) |
| Backend.AccLatest | bumboo-ui/backend/main.py:279-286 | the latest price is that of the row with the strictly greatest time, the earlier row winning a tie; none while no time parses |
| Backend.LatestUnique | bumboo-ui/backend/main.py:279-286 | at most one row of a group is the latest |
| Backend.MeanBetween | bumboo-ui/backend/main.py:299 | the mean of prices within bounds stays within them |
| Backend.MinBounds | bumboo-ui/backend/main.py:300 | the minimum is a price of the list and bounds every price from below |
| Backend.MaxBounds | bumboo-ui/backend/main.py:301 | the maximum is a price of the list and bounds every price from above |
| Backend.AvgBetween | bumboo-ui/backend/main.py:299-301 | the average lies between the minimum and the maximum |
| Backend.Summaries | bumboo-ui/backend/main.py:288-304 | one answer entry per group key |
| Backend.AddRow | bumboo-ui/backend/main.py:257-286 | after one more row, the keys and group states are those of the longer prefix |
| Backend.Aggregate | bumboo-ui/backend/main.py:256-286 | the keys come in first-seen order, and each state is its group's fold |
| Backend.SummariesFromGroups | bumboo-ui/backend/main.py:256-304 | once every key's state is the fold of its group, entry m of the answer is the summary of key m's state |
| Backend.Summarize | bumboo-ui/backend/main.py:288-304 | the closing loop emits exactly the expected entries, one per key in insertion order |
| Backend.Products | bumboo-ui/backend/main.py:247-304 | `products` returns the summaries of the rows matching brand and site |
| Backend.SummaryFacts | bumboo-ui/backend/main.py:288-304 | an entry's count, sites and site count are its group's; `avg_price` is the mean of the group's numeric prices in row order; min, avg and max are all None iff no price is numeric, and otherwise ordered and bounding every price; the latest price is the latest row's |
| Backend.SummaryPrices | bumboo-ui/backend/main.py:297-301 | the price columns: `avg_price` is `sum(prices)/len(prices)` of the rows' numeric prices, None exactly when min and max are, and min ≤ avg ≤ max bound every numeric price |
| Backend.GroupSizesAll | bumboo-ui/backend/main.py:256-273 | every row falls into exactly one group |
| Backend.ProductsExactly | bumboo-ui/backend/main.py:247-304 | one entry per distinct (brand, description, size); the counts add up to the filtered rows; each entry summarises its group; every row counted matches the filters |
| Backend.ReplaceChar | bumboo-ui/backend/main.py:382 | `replace` of one character changes exactly its occurrences |
| Backend.SiteKeyNoUpper | bumboo-ui/backend/main.py:380-382 | the compared site name has no upper-case letter |
| Backend.FairTokens | bumboo-ui/backend/main.py:384 | the FairPrice tokens occur in a lower-case name iff "fair" does |
| Backend.ColdTokens | bumboo-ui/backend/main.py:386 | the Cold Storage tokens occur iff "cold" does |
| Backend.RedTokens | bumboo-ui/backend/main.py:388 | the RedMart tokens occur iff "red", "lazada" or "lzd" does |
| Backend.SiteFieldExactly | bumboo-ui/backend/main.py:379-390 | a site feeds fairprice iff its name has "fair"; else coldStorage iff "cold"; else redmart iff "red", "lazada" or "lzd"; else nothing |
| Backend.AddPriceTotal | bumboo-ui/backend/main.py:376 | `setdefault(...).append` adds one price to the day and leaves no bucket empty |
| Backend.BucketedCount | bumboo-ui/backend/main.py:359-376 | a day's buckets hold one price per row charted that day, and none is empty |
| Backend.AddPriceAt | bumboo-ui/backend/main.py:376 | with distinct site names, `setdefault(site, []).append(p)` extends that site's own bucket in place, or appends a new bucket `[p]` when the site has none; every other bucket is unchanged |
| Backend.AddPriceHolds | bumboo-ui/backend/main.py:376 | adding a price keeps each bucket equal to its site's prices so far, the site names distinct and every priced site present |
| Backend.BucketedSites | bumboo-ui/backend/main.py:359-376 | each bucket of a day holds exactly the prices, in row order, of that day's charted rows whose stripped site name ("unknown" when missing) is the bucket's; no two buckets share a site name; every such site name has a bucket (`SitePrices`) |
| Backend.BucketRows | bumboo-ui/backend/main.py:359-376 | the loop builds the buckets of the charted rows |
| Backend.DayEntry | bumboo-ui/backend/main.py:396-409 | the loop over a day's buckets builds that day's entry |
| Backend.EntryCount | bumboo-ui/backend/main.py:402-409 | an entry's count is every price of its day, including sites that feed no column |
| Backend.LastFeeding | bumboo-ui/backend/main.py:403-407 | the last bucket feeding a column is a bucket of the day |
| Backend.LastFeedingExactly | bumboo-ui/backend/main.py:403-407 | the search finds a bucket feeding the column with none after it, or none when no bucket feeds it |
| Backend.EntryField | bumboo-ui/backend/main.py:399-407 | a column is None when no site feeds it, and otherwise the average of the last bucket that does |
| Backend.ColumnOfBuckets | bumboo-ui/backend/main.py:399-407 | over buckets that hold their site names' prices, a column is None iff no site name feeding it has a price, and otherwise the average of all the prices of one site name that feeds it |
| Backend.SeriesShape | bumboo-ui/backend/main.py:393-413 | the series lists the window's days in increasing order, each with its total count; it is exactly the days that have prices |
| Backend.SeriesEntriesAre | bumboo-ui/backend/main.py:393-413 | each listed day is the entry built from that day's buckets |
| Backend.DailySeries | bumboo-ui/backend/main.py:393-413 | the output loop builds the series over `n` days |
| Backend.PriceHistory | bumboo-ui/backend/main.py:356-413 | `price_history` buckets the rows and builds the series over `days + 1` days |
| Backend.PriceHistoryExactly | bumboo-ui/backend/main.py:356-413 | the answer lists days in increasing order within the window, each counting the rows charted that day, and every such day |
| Backend.PriceHistoryColumns | bumboo-ui/backend/main.py:356-413 | each column (fairprice, coldStorage, redmart) of each listed day is None iff no site name feeding it has a row charted that day, and otherwise the average of all of that day's prices under one such site name |

## Left out

- HTTP, HTML parsing, JSON decoding, files, sockets, the Supabase client and logging are not modelled. Their results are parameters: card and detail-page texts, decoded payloads in fetch order, and rows of a dump.
- The Supabase branches of `prices`, `products` and `price_history` (bumboo-ui/backend/main.py:137-162, 210-224, 323-335) are not modelled. Only the local fallback is.
- Backend row sources are not modelled. This covers `_load_latest_json`, the dump-file loop, and the time-window test that picks the rows of `products` and `price_history` (main.py:109-117, 226-244, 336-354). The rows are given.
- Backend.Row: price values that are neither null nor a number (strings, booleans) are not modelled. Nor are `float(price)` raising and Python's `True` counting as a number.
- Backend.PriceHistoryColumns: when several site names feed one column on a day, the column is the average of the last of their buckets in insertion order (`Backend.EntryField`), that is, the site name whose first charted row that day comes last; the rows-level statement only says it is one of them, since tying bucket order to first appearance in the rows is not proved.
- Backend.SummaryFacts: `sites` is a set, so the order of the `list(set)` in the answer is not modelled.
- Backend.Products: comparing a naive with an aware timestamp raises `TypeError`, which `except Exception: pass` (bumboo-ui/backend/main.py:280-286) swallows, so that row just leaves the latest price as it was. The model gives timestamps one total order and has no such row.
- Backend: `_parse_iso_datetime`, `datetime.fromisoformat`, the date's ISO text and `datetime.now()` are parameters, and so is the window's first day. Days are integers, one per ISO date.
- Backend: `PriceRow` validation is not modelled, and neither is the `/api/health` endpoint.
- ColdStorage, FairPrice, RedMart: `float()` and `int()` of numeric text, `urljoin`, and the clock are parameters. Prices are exact reals, not binary floats.
- `_safe_float`, `_safe_int` and RedMart's `_parse_price` (bumboo-scraper/scrapers/redmart.py:178-189, the first run of digits and dots through `float()`) are not modelled. Their results appear directly as optional fields of the payload items.
- RedMart.Scrape: the single-product-page branch (`url` without `api_url`, redmart.py:57-109) is not modelled. It returns `Ok(None)`. Tracking data, rating regexes and the exception fallback are not modelled.
- RedMart.FilterByDataset: `_filter_by_dataset` mutates the records in place, including those of the caller's list. The model works on record values and returns the tagged copies.
- FairPrice.Scrape, RedMart.CollectPages: the pages are a finite list. A site that always offers a further page, which the source would loop on forever, is not modelled.
- `_headers`, `_next_url`'s URL rebuilding (beyond its query), `_coerce_*` and `_parse_price_value` are not modelled.
- `_normalize_size` (scrapers/normalizer.py:79-82) is never called, and is not modelled.
- Regex and string semantics are ASCII. This covers `\w`, `\d`, `\s`, `lower()` and `strip()`. There is no Unicode case folding.
- `scrapers/runner.py`, `storage.py`, `base.py` and `example.py` are not part of this model.
- RunDataset.Run: the number of dataset rows is a parameter. `run_dataset.py:14` imports `load_dataset_rows`, which catalog.py does not define.
- RunDataset.Run: the interpreter prefix is a parameter, the text of `python_cmd`.
- RunDataset.Run: printing and `subprocess.run` are recorded as the lists of announcements and commands. A failing command (which stops the script through `check=True`) is not modelled.
- RunDataset.Run: the runner's acceptance of `--dataset-row` and `--dump-first` is not checked.

## Findings

| source | as written | input that shows it | evidently intended | confidence | as-written member | corrected member |
|---|---|---|---|---|---|---|
| bumboo-scraper/scripts/run_dataset.py:71-92 | `python_cmd` holds a `Path` object when `venv/bin/python` exists, and `' '.join(cmd)` accepts only strings | a checkout with `venv/bin/python` present: announcing the first row raises TypeError, so no row is ever run | announce `' '.join(map(str, cmd))`, the same text for a path as for a string | high (not executed) | RunDataset.AnnouncementAsWritten | RunDataset.Run |
