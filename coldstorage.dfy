/** The Cold Storage category scraper (bumboo-scraper/scrapers/coldstorage.py):
    price text assembly, size tokens, ply detection, and the turn of listing
    cards or a product detail page into records. The fetched page is given
    already parsed: a node is the `Option` of its stripped text, and
    `float(...)`, `urljoin` and the clock come from the runtime. */
module ColdStorage {
  import opened Text
  import opened Models
  import PlyPattern

  /** What the scraper takes from its runtime. */
  datatype Runtime = Runtime(
    resolve: (string, string) -> string,   // urljoin(base, href)
    toFloat: string -> real,               // float(s) on a well-formed decimal literal
    now: int)                              // the record timestamp

  /** A listing card: the texts of `.name`, `.price-box .price`,
      `.price-box .small-price` and `.price-box .line-price`, the `href`
      attribute, and whether a `.sold` badge is present. */
  datatype Card = Card(
    name: Option<string>,
    href: Option<string>,
    price: Option<string>,
    smallPrice: Option<string>,
    linePrice: Option<string>,
    sold: bool)

  /** The `.price-line` node of a detail page: its `.price` and `.price-small` texts. */
  datatype PriceLine = PriceLine(integer: Option<string>, decimal: Option<string>)

  /** The `.info-content` node of a detail page. */
  datatype DetailInfo = DetailInfo(title: Option<string>, priceLine: Option<PriceLine>)

  predicate AllDigits(s: string)
  {
    forall k :: 0 <= k < |s| ==> IsDigit(s[k])
  }

  predicate NumericChar(c: char, allowDecimal: bool)
  {
    IsDigit(c) || (allowDecimal && c == '.')
  }

  /** `re.sub(r"[^\d]", "", s)`, or `re.sub(r"[^\d.]", "", s)` when decimals are allowed. */
  function KeepNumeric(s: string, allowDecimal: bool): string
  {
    if s == [] then []
    else (if NumericChar(s[0], allowDecimal) then [s[0]] else []) + KeepNumeric(s[1..], allowDecimal)
  }

  /** The filter keeps every digit (and dot, if allowed) and nothing else. */
  lemma {:induction false} KeepNumericExactly(s: string, allowDecimal: bool)
    ensures forall k :: 0 <= k < |KeepNumeric(s, allowDecimal)| ==> NumericChar(KeepNumeric(s, allowDecimal)[k], allowDecimal)
    ensures forall c :: multiset(KeepNumeric(s, allowDecimal))[c] == if NumericChar(c, allowDecimal) then multiset(s)[c] else 0
  {
    if s != [] {
      KeepNumericExactly(s[1..], allowDecimal);
      assert s == [s[0]] + s[1..];
    }
  }

  /** The filter yields nothing exactly when the input has no digit (or allowed dot). */
  lemma KeepNumericEmpty(s: string, allowDecimal: bool)
    ensures KeepNumeric(s, allowDecimal) == [] <==> forall k :: 0 <= k < |s| ==> !NumericChar(s[k], allowDecimal)
  {
    KeepNumericExactly(s, allowDecimal);
    if KeepNumeric(s, allowDecimal) == [] {
      forall k | 0 <= k < |s|
        ensures !NumericChar(s[k], allowDecimal)
      {
        assert s[k] in multiset(s);
      }
    } else {
      var c := KeepNumeric(s, allowDecimal)[0];
      assert c in multiset(s);
    }
  }

  /** `_sanitize_number`, the node given by its stripped text. */
  function SanitizeNumber(node: Option<string>, allowEmpty: bool, allowDecimal: bool): Option<string>
  {
    if node.None? then (if allowEmpty then Some([]) else None)
    else
      var cleaned := KeepNumeric(node.value, allowDecimal);
      if cleaned == [] && !allowEmpty then None else Some(cleaned)
  }

  /** A missing node gives None, or "" when empty is allowed; otherwise the
      result holds exactly the digits (and dots, if allowed) of the text,
      and is None when there are none unless empty is allowed. */
  lemma SanitizeNumberExactly(node: Option<string>, allowEmpty: bool, allowDecimal: bool)
    ensures var r := SanitizeNumber(node, allowEmpty, allowDecimal);
            r.None? <==> !allowEmpty && (node.None? || forall k :: 0 <= k < |node.value| ==> !NumericChar(node.value[k], allowDecimal))
    ensures node.None? && SanitizeNumber(node, allowEmpty, allowDecimal).Some? ==> SanitizeNumber(node, allowEmpty, allowDecimal).value == []
    ensures var r := SanitizeNumber(node, allowEmpty, allowDecimal);
            r.Some? ==> forall k :: 0 <= k < |r.value| ==> NumericChar(r.value[k], allowDecimal)
    ensures var r := SanitizeNumber(node, allowEmpty, allowDecimal);
            r.Some? && node.Some? ==> forall c :: NumericChar(c, allowDecimal) ==> multiset(r.value)[c] == multiset(node.value)[c]
  {
    if node.Some? {
      KeepNumericExactly(node.value, allowDecimal);
      KeepNumericEmpty(node.value, allowDecimal);
    }
  }

  /** The sanitised text of a node, digits only. */
  lemma SanitizedDigits(node: Option<string>, allowEmpty: bool)
    ensures SanitizeNumber(node, allowEmpty, false).Some? ==> AllDigits(SanitizeNumber(node, allowEmpty, false).value)
  {
    SanitizeNumberExactly(node, allowEmpty, false);
  }

  /** A price text: digits, a dot, and at least `minFrac` digits. */
  predicate DecimalText(s: string, w: nat, minFrac: nat)
  {
    0 < w < |s| && s[w] == '.' && AllDigits(s[..w]) && AllDigits(s[w + 1..]) && |s| - w - 1 >= minFrac
  }

  /** `_parse_price`, up to the final `float(...)`: the text
      "{dollars}.{cents.zfill(2)}", where the cents default to "00". */
  function PriceText(price: Option<string>, smallPrice: Option<string>): Option<string>
  {
    match SanitizeNumber(price, false, false)
    case None => None
    case Some(dollars) =>
      var cents := OrElse(SanitizeNumber(smallPrice, true, false), "00");
      Some(dollars + "." + ZFill(cents, 2))
  }

  /** A card price exists exactly when the price text has a digit, and it
      is then whole digits, a dot and at least two fraction digits. */
  lemma PriceTextShape(price: Option<string>, smallPrice: Option<string>)
    ensures PriceText(price, smallPrice).None? <==>
              price.None? || forall k :: 0 <= k < |price.value| ==> !IsDigit(price.value[k])
    ensures PriceText(price, smallPrice).Some? ==>
              exists w :: DecimalText(PriceText(price, smallPrice).value, w, 2)
  {
    SanitizeNumberExactly(price, false, false);
    match SanitizeNumber(price, false, false)
    case None =>
    case Some(dollars) =>
      SanitizedDigits(price, false);
      SanitizedDigits(smallPrice, true);
      var cents := OrElse(SanitizeNumber(smallPrice, true, false), "00");
      var z := ZFill(cents, 2);
      assert AllDigits(z);
      var t := dollars + "." + z;
      assert t[..|dollars|] == dollars && t[|dollars| + 1..] == z;
      assert DecimalText(t, |dollars|, 2);
  }

  /** `_parse_price_line`, up to the final `float(...)`. */
  function PriceLineText(line: PriceLine): Option<string>
  {
    if line.integer.None? then None
    else PriceLineParts(OrElse(SanitizeNumber(line.integer, false, false), ""),
                        OrElse(SanitizeNumber(line.decimal, true, false), ""))
  }

  /** The text assembled from the sanitised whole and fraction parts: the
      fraction loses leading dots and is padded on the right to two digits,
      the whole part defaults to "0", and two empty parts give None. */
  function PriceLineParts(whole: string, frac0: string): Option<string>
  {
    var frac := if frac0 != [] then LStripDots(frac0) else frac0;
    if whole == [] && frac == [] then None
    else
      var denom := if frac != [] then LJust(frac, 2, '0') else "00";
      var value := if whole != [] then whole else "0";
      Some(value + "." + denom)
  }

  /** On digit parts the text is missing exactly when both parts are empty,
      and is otherwise whole digits, a dot and at least two fraction digits. */
  lemma PriceLinePartsShape(whole: string, frac0: string)
    requires AllDigits(whole) && AllDigits(frac0)
    ensures PriceLineParts(whole, frac0).None? <==> whole == [] && frac0 == []
    ensures PriceLineParts(whole, frac0).Some? ==> exists w :: DecimalText(PriceLineParts(whole, frac0).value, w, 2)
  {
    LStripDotsOfDigits(frac0);
    if whole != [] || frac0 != [] {
      var denom := if frac0 != [] then LJust(frac0, 2, '0') else "00";
      var value := if whole != [] then whole else "0";
      assert AllDigits(denom);
      var t := value + "." + denom;
      assert t[..|value|] == value && t[|value| + 1..] == denom;
      assert DecimalText(t, |value|, 2);
    }
  }

  /** A detail price is missing exactly when there is no `.price` node or
      neither node has a digit; otherwise it is whole digits, a dot and at
      least two fraction digits. */
  lemma PriceLineTextShape(line: PriceLine)
    ensures PriceLineText(line).None? <==>
              line.integer.None?
              || ((forall k :: 0 <= k < |line.integer.value| ==> !IsDigit(line.integer.value[k]))
                  && (line.decimal.None? || forall k :: 0 <= k < |line.decimal.value| ==> !IsDigit(line.decimal.value[k])))
    ensures PriceLineText(line).Some? ==> exists w :: DecimalText(PriceLineText(line).value, w, 2)
  {
    if line.integer.Some? {
      SanitizeNumberExactly(line.integer, false, false);
      SanitizeNumberExactly(line.decimal, true, false);
      SanitizedDigits(line.integer, false);
      SanitizedDigits(line.decimal, true);
      var whole := OrElse(SanitizeNumber(line.integer, false, false), "");
      var frac0 := OrElse(SanitizeNumber(line.decimal, true, false), "");
      assert whole == [] <==> forall k :: 0 <= k < |line.integer.value| ==> !IsDigit(line.integer.value[k]);
      if line.decimal.Some? {
        KeepNumericEmpty(line.decimal.value, false);
      }
      assert frac0 == [] <==> line.decimal.None? || forall k :: 0 <= k < |line.decimal.value| ==> !IsDigit(line.decimal.value[k]);
      PriceLinePartsShape(whole, frac0);
    }
  }

  /** `s.lstrip(".")` */
  function LStripDots(s: string): string
  {
    if s != [] && s[0] == '.' then LStripDots(s[1..]) else s
  }

  /** The `lstrip(".")` in `_parse_price_line` never changes anything: the
      sanitised fraction holds digits only. */
  lemma LStripDotsOfDigits(s: string)
    requires AllDigits(s)
    ensures LStripDots(s) == s
  {
  }

  /** Text made of digits (and allowed dots) passes the filter unchanged. */
  lemma {:induction false} KeepNumericOfNumeric(s: string, allowDecimal: bool)
    requires forall k :: 0 <= k < |s| ==> NumericChar(s[k], allowDecimal)
    ensures KeepNumeric(s, allowDecimal) == s
  {
    if s != [] {
      KeepNumericOfNumeric(s[1..], allowDecimal);
      assert [s[0]] + s[1..] == s;
    }
  }

  /** The dollar and detail-page price helpers pad a one-digit fraction on
      opposite sides: cents "5" are five cents on a card but fifty on a
      detail page. */
  lemma CentsPaddedOppositeWays(price: Option<string>, cents: Option<string>)
    requires price == Some("3") && cents == Some("5")
    ensures PriceText(price, cents) == Some("3.05")
    ensures PriceLineText(PriceLine(price, cents)) == Some("3.50")
  {
    KeepNumericOfNumeric("3", false);
    KeepNumericOfNumeric("5", false);
    assert ZFill("5", 2) == "05";
    assert "3" + "." + "05" == "3.05";
    assert LJust("5", 2, '0') == "50";
    assert "3" + "." + "50" == "3.50";
  }

  /** A detail page with no whole part still yields a price, with "0" in front. */
  lemma DetailPriceWithoutWholePart(line: PriceLine)
    requires line.integer == Some("$") && line.decimal == Some("99")
    ensures PriceLineText(line) == Some("0.99")
  {
    KeepNumericEmpty("$", false);
    KeepNumericOfNumeric("99", false);
    assert LJust("99", 2, '0') == "99";
    assert "0" + "." + "99" == "0.99";
  }

  /** `float(value) if value else None` in `_parse_line_price`: the sanitised
      text keeps dots, so it may be no number at all ("1.2.3", "."), and then
      `float` raises ValueError. */
  predicate IsDecimalLiteral(s: string)
  {
    (exists k :: 0 <= k < |s| && IsDigit(s[k]))
    && forall i, j :: 0 <= i < j < |s| && s[i] == '.' ==> s[j] != '.'
  }

  /** `_parse_line_price` */
  function LinePrice(node: Option<string>, toFloat: string -> real): (r: Result<Option<real>>)
    ensures r.Err? <==> node.Some? && KeepNumeric(node.value, true) != [] && !IsDecimalLiteral(KeepNumeric(node.value, true))
    ensures r == Ok(None) <==> node.None? || KeepNumeric(node.value, true) == []
  {
    match SanitizeNumber(node, false, true)
    case None => Ok(None)
    case Some(value) =>
      if IsDecimalLiteral(value) then Ok(Some(toFloat(value))) else Err("ValueError")
  }

  /** A line price with two dots survives sanitising and makes `float` raise. */
  lemma TwoDotLinePriceRaises(node: Option<string>, toFloat: string -> real)
    requires node == Some("1.2.3")
    ensures LinePrice(node, toFloat).Err?
  {
    KeepNumericOfNumeric("1.2.3", true);
    assert "1.2.3"[1] == '.' && "1.2.3"[3] == '.';
  }

  /** `_extract_ply` */
  function ExtractPly(name: string): Option<string>
  {
    PlyPattern.ExtractPly(name)
  }

  // ---------------------------------------------------------------------
  // Size tokens

  /** The name with a leading brand (in any letter case) cut off and the rest
      stripped; a name not starting with the brand is kept as it is. */
  function DropBrand(name: string, brand: string): (r: string)
    ensures StartsWith(Lower(name), Lower(brand)) ==> r == Strip(name[|brand|..])
    ensures !StartsWith(Lower(name), Lower(brand)) ==> r == name
  {
    if StartsWith(Lower(name), Lower(brand)) then Strip(name[|brand|..]) else name
  }

  /** `SIZE_TOKEN_PATTERN` (`\b\d+[^\s]*`) can start at `p`: a digit with no
      word character before it. */
  predicate TokenStart(s: string, p: nat)
  {
    p < |s| && IsDigit(s[p]) && (p == 0 || !IsWordChar(s[p - 1]))
  }

  /** First whitespace at or after `p`, or the end. */
  function NextSpace(s: string, p: nat): (q: nat)
    requires p <= |s|
    ensures p <= q <= |s|
    ensures forall k :: p <= k < q ==> !IsSpace(s[k])
    ensures q < |s| ==> IsSpace(s[q])
    decreases |s| - p
  {
    if p < |s| && !IsSpace(s[p]) then NextSpace(s, p + 1) else p
  }

  /** `_is_ply_token(token, text, start, end)` */
  predicate IsPlyToken(token: string, text: string, start: nat, end: nat)
    requires start <= end <= |text|
  {
    || Contains(Lower(token), "ply")
    || StartsWith(Lower(text[end..if end + 4 <= |text| then end + 4 else |text|]), "ply")
    || EndsWith(Lower(text[if start >= 3 then start - 3 else 0..start]), "ply")
  }

  /** The kept tokens of `SIZE_TOKEN_PATTERN.finditer(s)` from `p` on: each
      match runs from a token start to the next whitespace, and the search
      resumes where the match ended. */
  function SizeTokensFrom(s: string, p: nat): seq<string>
    requires p <= |s|
    decreases |s| - p
  {
    if p == |s| then []
    else if TokenStart(s, p) then
      var q := NextSpace(s, p);
      (if IsPlyToken(s[p..q], s, p, q) then [] else [s[p..q]]) + SizeTokensFrom(s, q)
    else SizeTokensFrom(s, p + 1)
  }

  /** What `_extract_size` returns for a name under a job brand. */
  function SizeOf(name: string, brand: string): Option<string>
  {
    var v := Strip(Join(SizeTokensFrom(DropBrand(name, brand), 0), " "));
    if v == [] then None else Some(v)
  }

  /** The `finditer` loop of `_extract_size`: the size tokens that are not ply tokens. */
  method SizeTokens(s: string) returns (tokens: seq<string>)
    ensures tokens == SizeTokensFrom(s, 0)
  {
    tokens := [];
    var p := 0;
    while p < |s|
      invariant 0 <= p <= |s|
      invariant tokens + SizeTokensFrom(s, p) == SizeTokensFrom(s, 0)
      decreases |s| - p
    {
      if TokenStart(s, p) {
        var q := NextSpace(s, p);
        if !IsPlyToken(s[p..q], s, p, q) {
          tokens := tokens + [s[p..q]];
        }
        p := q;
      } else {
        p := p + 1;
      }
    }
    assert tokens + [] == tokens;
  }

  /** `_extract_size` */
  method ExtractSize(name: string, brand: string) returns (size: Option<string>)
    ensures size == SizeOf(name, brand)
  {
    var normalized := name;
    if StartsWith(Lower(normalized), Lower(brand)) {
      normalized := Strip(normalized[|brand|..]);
    }
    var tokens := SizeTokens(normalized);
    var value := Strip(Join(tokens, " "));
    size := if value == [] then None else Some(value);
  }

  /** A size token starts with a digit, holds no whitespace and no "ply". */
  predicate GoodToken(t: string)
  {
    t != [] && IsDigit(t[0]) && (forall k :: 0 <= k < |t| ==> !IsSpace(t[k])) && !Contains(Lower(t), "ply")
  }

  /** Only the first of `_is_ply_token`'s three tests can fire on a match of
      `SIZE_TOKEN_PATTERN`: the text after a token starts with whitespace,
      and the character before it is no word character, so no "ply" can
      follow or precede it directly. */
  lemma PlyTokenByContentOnly(s: string, p: nat)
    requires TokenStart(s, p)
    ensures IsPlyToken(s[p..NextSpace(s, p)], s, p, NextSpace(s, p)) <==> Contains(Lower(s[p..NextSpace(s, p)]), "ply")
  {
    var q := NextSpace(s, p);
    var tail := Lower(s[q..if q + 4 <= |s| then q + 4 else |s|]);
    if tail != [] {
      assert tail[0] == LowerChar(s[q]);
    }
    var head := Lower(s[if p >= 3 then p - 3 else 0..p]);
    if head != [] {
      assert head[|head| - 1] == LowerChar(s[p - 1]);
    }
  }

  /** Every kept token is a good token. */
  lemma {:induction false} SizeTokensGood(s: string, p: nat)
    requires p <= |s|
    ensures forall k :: 0 <= k < |SizeTokensFrom(s, p)| ==> GoodToken(SizeTokensFrom(s, p)[k])
    decreases |s| - p
  {
    if p < |s| {
      if TokenStart(s, p) {
        var q := NextSpace(s, p);
        SizeTokensGood(s, q);
        PlyTokenByContentOnly(s, p);
        assert s[p..q][0] == s[p];
      } else {
        SizeTokensGood(s, p + 1);
      }
    }
  }

  /** Good tokens joined by single spaces have no outer whitespace. */
  lemma {:induction false} JoinGoodTokens(ts: seq<string>)
    requires ts != [] && forall k :: 0 <= k < |ts| ==> GoodToken(ts[k])
    requires ts[0] != [] && ts[|ts| - 1] != []
    ensures Join(ts, " ") != []
    ensures Join(ts, " ")[0] == ts[0][0]
    ensures Join(ts, " ")[|Join(ts, " ")| - 1] == ts[|ts| - 1][|ts[|ts| - 1]| - 1]
  {
    if |ts| > 1 {
      JoinGoodTokens(ts[1..]);
    }
  }

  /** `_extract_size` finds a size exactly when some non-ply token exists,
      and it is then those tokens joined by single spaces (the final strip
      has nothing to remove). */
  lemma SizeOfExactly(name: string, brand: string)
    ensures SizeOf(name, brand).None? <==> SizeTokensFrom(DropBrand(name, brand), 0) == []
    ensures SizeOf(name, brand).Some? ==> SizeOf(name, brand).value == Join(SizeTokensFrom(DropBrand(name, brand), 0), " ")
  {
    var ts := SizeTokensFrom(DropBrand(name, brand), 0);
    SizeTokensGood(DropBrand(name, brand), 0);
    if ts != [] {
      JoinGoodTokens(ts);
      var j := Join(ts, " ");
      assert !IsSpace(ts[|ts| - 1][|ts[|ts| - 1]| - 1]);
      StripNoOuterSpace(j);
    }
  }

  /** "3 ply" keeps "3" as a size: the tail test looks at " ply", which
      does not start with "ply". */
  lemma SeparatedPlyCountIsASize(name: string, brand: string)
    requires name == "3 ply" && brand == "Kleenex"
    ensures SizeOf(name, brand) == Some("3")
  {
    assert !StartsWith(Lower(name), Lower(brand));
    assert NextSpace(name, 0) == 1;
    assert !Contains(Lower("3"), "ply");
    PlyTokenByContentOnly(name, 0);
    assert SizeTokensFrom(name, 5) == [];
    assert !TokenStart(name, 4) && SizeTokensFrom(name, 4) == [];
    assert !TokenStart(name, 3) && SizeTokensFrom(name, 3) == [];
    assert !TokenStart(name, 2) && SizeTokensFrom(name, 2) == [];
    assert !TokenStart(name, 1) && SizeTokensFrom(name, 1) == [];
    assert name[0..1] == "3";
    assert SizeTokensFrom(name, 0) == ["3"];
    StripNoOuterSpace("3");
  }

  /** `NextSpace` pinned down by the characters it passes over. */
  lemma {:induction false} NextSpaceAt(s: string, p: nat, q: nat)
    requires p <= q <= |s|
    requires forall k :: p <= k < q ==> !IsSpace(s[k])
    requires q < |s| ==> IsSpace(s[q])
    ensures NextSpace(s, p) == q
    decreases q - p
  {
    if p < q {
      NextSpaceAt(s, p + 1, q);
    }
  }

  /** A leading brand is dropped in any letter case, and a token glued to
      "ply" is not a size. */
  lemma BrandAndPlyTokenDropped(name: string, brand: string)
    requires name == "Kleenex 10x200 3ply" && brand == "KLEENEX"
    ensures SizeOf(name, brand) == Some("10x200")
  {
    BrandDropped(name, brand);
    var s := DropBrand(name, brand);
    GluedPlyTokenDropped(s);
    StripNoOuterSpace("10x200");
  }

  lemma BrandDropped(name: string, brand: string)
    requires name == "Kleenex 10x200 3ply" && brand == "KLEENEX"
    ensures DropBrand(name, brand) == "10x200 3ply"
  {
    assert Lower(name)[..7] == Lower(brand);
    StripOneLeading(name[7..]);
  }

  lemma GluedPlyTokenDropped(s: string)
    requires s == "10x200 3ply"
    ensures SizeTokensFrom(s, 0) == ["10x200"]
  {
    PlyTokenDropped(s);
    assert !TokenStart(s, 6);
    assert SizeTokensFrom(s, 6) == [];
    NextSpaceAt(s, 0, 6);
    SizeTokenKept(s);
    assert s[0..6] == "10x200";
  }

  lemma SizeTokenKept(s: string)
    requires s == "10x200 3ply"
    ensures !IsPlyToken(s[0..6], s, 0, 6)
  {
    NextSpaceAt(s, 0, 6);
    PlyTokenByContentOnly(s, 0);
    NotContainsChar(Lower(s[0..6]), "ply", 'p');
  }

  lemma PlyTokenDropped(s: string)
    requires s == "10x200 3ply"
    ensures SizeTokensFrom(s, 7) == []
  {
    NextSpaceAt(s, 7, 11);
    assert s[7..11] == "3ply";
    assert Lower("3ply") == "3ply";
    assert OccursAt("3ply", "ply", 1);
    assert SizeTokensFrom(s, 11) == [];
  }

  // ---------------------------------------------------------------------
  // Records

  /** `self.job.options.get("size") or self._extract_size(name)` */
  function RecordSize(job: ScrapeJob, name: string): Option<string>
  {
    Or(OptionOf(job, "size"), SizeOf(name, job.brand))
  }

  /** `self.job.options.get("ply") or self._extract_ply(name)` */
  function RecordPly(job: ScrapeJob, name: string): Option<string>
  {
    Or(OptionOf(job, "ply"), ExtractPly(name))
  }

  /** A non-empty size or ply option wins over what the name says; an
      absent or empty one leaves the name to decide. */
  lemma OptionsTakePrecedence(job: ScrapeJob, name: string)
    ensures "size" in job.options && job.options["size"] != [] ==> RecordSize(job, name) == Some(job.options["size"])
    ensures !("size" in job.options && job.options["size"] != []) ==> RecordSize(job, name) == SizeOf(name, job.brand)
    ensures "ply" in job.options && job.options["ply"] != [] ==> RecordPly(job, name) == Some(job.options["ply"])
    ensures !("ply" in job.options && job.options["ply"] != []) ==> RecordPly(job, name) == ExtractPly(name)
  {
  }

  function OptionalPrice(text: Option<string>, toFloat: string -> real): Option<real>
  {
    match text
    case Some(t) => Some(toFloat(t))
    case None => None
  }

  /** A card that `_scrape` turns into a record: its name is not empty. */
  predicate Named(card: Card)
  {
    OrElse(card.name, "") != []
  }

  /** A named card whose line price makes `float` raise ValueError. */
  predicate BadLinePrice(card: Card)
  {
    Named(card) && LinePrice(card.linePrice, x => 0.0).Err?
  }

  /** The record of one named card whose line price parses. */
  function CardRecord(job: ScrapeJob, pageUrl: string, card: Card, rt: Runtime): (r: ProductRecord)
    requires Named(card) && !BadLinePrice(card)
    ensures r.brand == job.brand && r.site == job.siteName && r.description == card.name.value
    ensures r.totalReviews.None? && r.totalRating.None?
  {
    var name := card.name.value;
    ProductRecord(
      brand := job.brand,
      description := name,
      site := job.siteName,
      size := RecordSize(job, name),
      ply := RecordPly(job, name),
      price := OptionalPrice(PriceText(card.price, card.smallPrice), rt.toFloat),
      totalReviews := None,
      totalRating := None,
      sourceUrl := rt.resolve(pageUrl, Strip(OrElse(card.href, ""))),
      metadata := map["job_description" := MetaText(job.description),
                      "raw_name" := MetaText(name),
                      "list_price" := MetaNumber(LinePrice(card.linePrice, rt.toFloat).value),
                      "sold_out" := MetaFlag(card.sold)],
      collectedAt := rt.now)
  }

  /** The records of the named cards, in card order. */
  function RecordsOf(job: ScrapeJob, pageUrl: string, cards: seq<Card>, rt: Runtime): seq<ProductRecord>
    requires forall k :: 0 <= k < |cards| ==> !BadLinePrice(cards[k])
  {
    if cards == [] then []
    else
      var last := cards[|cards| - 1];
      RecordsOf(job, pageUrl, cards[..|cards| - 1], rt) + (if Named(last) then [CardRecord(job, pageUrl, last, rt)] else [])
  }

  /** The cards that produce a record. */
  function NamedCards(cards: seq<Card>): seq<Card>
  {
    if cards == [] then []
    else NamedCards(cards[..|cards| - 1]) + (if Named(cards[|cards| - 1]) then [cards[|cards| - 1]] else [])
  }

  /** What the card loop of `_scrape` yields: ValueError as soon as some
      named card has a malformed line price, otherwise the records. */
  function CardRecords(job: ScrapeJob, pageUrl: string, cards: seq<Card>, rt: Runtime): Result<seq<ProductRecord>>
  {
    if exists k :: 0 <= k < |cards| && BadLinePrice(cards[k]) then Err("ValueError")
    else Ok(RecordsOf(job, pageUrl, cards, rt))
  }

  /** One record per named card, in order, each carrying that card's name
      and the job's brand and site. */
  lemma {:induction false} RecordsOfExactly(job: ScrapeJob, pageUrl: string, cards: seq<Card>, rt: Runtime)
    requires forall k :: 0 <= k < |cards| ==> !BadLinePrice(cards[k])
    ensures |RecordsOf(job, pageUrl, cards, rt)| == |NamedCards(cards)|
    ensures forall k :: 0 <= k < |NamedCards(cards)| ==>
              var r := RecordsOf(job, pageUrl, cards, rt)[k];
              r.description == OrElse(NamedCards(cards)[k].name, "") && r.brand == job.brand && r.site == job.siteName
  {
    if cards != [] {
      RecordsOfExactly(job, pageUrl, cards[..|cards| - 1], rt);
    }
  }

  /** The card loop of `_scrape`. */
  method ScrapeCards(job: ScrapeJob, pageUrl: string, cards: seq<Card>, rt: Runtime) returns (r: Result<seq<ProductRecord>>)
    ensures r == CardRecords(job, pageUrl, cards, rt)
  {
    var records: seq<ProductRecord> := [];
    var i := 0;
    while i < |cards|
      invariant 0 <= i <= |cards|
      invariant forall k :: 0 <= k < i ==> !BadLinePrice(cards[k])
      invariant records == RecordsOf(job, pageUrl, cards[..i], rt)
    {
      assert cards[..i + 1][..i] == cards[..i];
      var card := cards[i];
      if OrElse(card.name, "") == [] {
        i := i + 1;
        continue;
      }
      var listPrice := LinePrice(card.linePrice, rt.toFloat);
      if listPrice.Err? {
        assert BadLinePrice(cards[i]);
        return Err(listPrice.error);
      }
      records := records + [CardRecord(job, pageUrl, card, rt)];
      i := i + 1;
    }
    assert cards[..i] == cards;
    r := Ok(records);
  }

  /** `_scrape_detail_page`: one record when the page has an info block with
      both a title and a price line, otherwise none. */
  function DetailRecords(job: ScrapeJob, url: string, info: Option<DetailInfo>, rt: Runtime): (r: seq<ProductRecord>)
    ensures |r| <= 1
    ensures r == [] <==> info.None? || info.value.title.None? || info.value.priceLine.None?
    ensures r != [] ==> r[0].sourceUrl == url && r[0].brand == job.brand && r[0].site == job.siteName
  {
    if info.None? || info.value.title.None? || info.value.priceLine.None? then []
    else
      var name := info.value.title.value;
      [ProductRecord(
        brand := job.brand,
        description := OrElse(OptionOf(job, "dataset_description"), name),
        site := job.siteName,
        size := RecordSize(job, name),
        ply := RecordPly(job, name),
        price := OptionalPrice(PriceLineText(info.value.priceLine.value), rt.toFloat),
        totalReviews := None,
        totalRating := None,
        sourceUrl := url,
        metadata := map["job_description" := MetaText(job.description),
                        "dataset_detail_url" := MetaText(url),
                        "original_description" := MetaText(name)],
        collectedAt := rt.now)]
  }

  /** The detail page's record keeps the page title as its original
      description and takes the dataset description over it when one is set. */
  lemma DetailDescription(job: ScrapeJob, url: string, info: Option<DetailInfo>, rt: Runtime)
    requires DetailRecords(job, url, info, rt) != []
    ensures DetailRecords(job, url, info, rt)[0].metadata["original_description"] == MetaText(info.value.title.value)
    ensures DetailRecords(job, url, info, rt)[0].description ==
              if Truthy(OptionOf(job, "dataset_description")) then job.options["dataset_description"] else info.value.title.value
  {
  }

  /** `_scrape`: a non-empty `dataset_detail_url` option selects the detail
      page; otherwise the `url` option (KeyError when absent) is the
      listing, whose final address after redirects is `pageUrl`. */
  method Scrape(job: ScrapeJob, pageUrl: string, cards: seq<Card>, detail: Option<DetailInfo>, rt: Runtime)
    returns (r: Result<seq<ProductRecord>>)
    ensures Truthy(OptionOf(job, "dataset_detail_url")) ==> r == Ok(DetailRecords(job, job.options["dataset_detail_url"], detail, rt))
    ensures !Truthy(OptionOf(job, "dataset_detail_url")) && "url" !in job.options ==> r == Err("KeyError")
    ensures !Truthy(OptionOf(job, "dataset_detail_url")) && "url" in job.options ==> r == CardRecords(job, pageUrl, cards, rt)
  {
    var detailPage := OptionOf(job, "dataset_detail_url");
    if detailPage.Some? && detailPage.value != [] {
      return Ok(DetailRecords(job, detailPage.value, detail, rt));
    }
    if "url" !in job.options {
      return Err("KeyError");
    }
    r := ScrapeCards(job, pageUrl, cards, rt);
  }
}
