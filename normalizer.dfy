/** The listing-reconciliation engine (scrapers/normalizer.py): an ordered
    table of canonical rules, a keyword fallback tier, the matcher and the
    batch partition into matched and unmatched records. */
module Normalizer {
  import opened Text
  import opened Models

  /** One canonical (brand, description, size) entry. */
  datatype Rule = Rule(brand: string, description: string, size: string)

  /** A fallback rule: every keyword must occur in the lower-cased description. */
  datatype KeywordRule = KeywordRule(brand: string, keywords: seq<string>, description: string, size: string)

  /** `NORMALIZATION_MAP`, in declaration order (entry `i` is source line
      18 + i), kept as one block of consecutive rows per brand. */
  const NormalizationMap: seq<Rule> :=
    BeautexRules + CloversoftRules + FairPriceRules + KleenexRules + NeutraRules + NooTreesRules + PaseoRules + PursoftRules + TempoRules + VindaRules

  /** Line 18 */
  const BeautexRules: seq<Rule> := [
    Rule("Beautex", "Bathroom Tissue Rolls", "20 x 220")
  ]

  /** Line 19 */
  const CloversoftRules: seq<Rule> := [
    Rule("Cloversoft", "Plant-Based Unbleached Bamboo", "10 x 200")
  ]

  /** Lines 20-27 */
  const FairPriceRules: seq<Rule> := [
    Rule("FairPrice", "Onwards Toilet Rolls", "30 x 220"),
    Rule("FairPrice", "DeluxSoft Bathroom Tissue", "20 x 200"),
    Rule("FairPrice", "DeluxSoft Bathroom Tissue", "10 x 200"),
    Rule("FairPrice", "Silky Soft Bathroom", "24 x 200"),
    Rule("FairPrice", "Silky Soft Bathroom", "10 x 200"),
    Rule("FairPrice", "DeluxSoft Bathroom", "100 x 200"),
    Rule("FairPrice", "DeluxSoft Bathroom", "120 (CTN)"),
    Rule("FairPrice", "Silky Soft Bathroom", "100 x 200")
  ]

  /** Lines 28-37 */
  const KleenexRules: seq<Rule> := [
    Rule("Kleenex", "Toilet Rolls - Ultra Soft", "20 x 200"),
    Rule("Kleenex", "Ultra Soft Cottony", "30 x 200"),
    Rule("Kleenex", "Ultra Soft & Thick", "20 x 180"),
    Rule("Kleenex", "Ultra Soft Aloe", "20 x 190"),
    Rule("Kleenex", "Toilet Rolls - Ultra Soft", "10 x 200"),
    Rule("Kleenex", "Ultra Soft Aloe", "22 x 190"),
    Rule("Kleenex", "Toilet Rolls (4ply) + Moist Wipes", "30 x 180"),
    Rule("Kleenex", "Supreme Soft", "16 x 190"),
    Rule("Kleenex", "Green Tea", "20 x 190"),
    Rule("Kleenex", "Ultra Soft Aloe", "10 x 190")
  ]

  /** Line 38 */
  const NeutraRules: seq<Rule> := [
    Rule("Neutra", "Bathroom Tissue Rolls", "20 x 190")
  ]

  /** Line 39 */
  const NooTreesRules: seq<Rule> := [
    Rule("NooTrees", "Bamboo Toilet Tissue", "10 x 220")
  ]

  /** Lines 40-44 */
  const PaseoRules: seq<Rule> := [
    Rule("Paseo", "Bathroom Roll", "10 x 200"),
    Rule("Paseo", "Bathroom Roll", "30 x 200"),
    Rule("Paseo", "Sensitive Skin", "10 x 200"),
    Rule("Paseo", "Sensitive Skin", "20 x 200"),
    Rule("Paseo", "Luxury Pure Pulp", "24 x 180")
  ]

  /** Lines 45-56 */
  const PursoftRules: seq<Rule> := [
    Rule("Pursoft", "100% Virgin Pulp Unscented", "24 x 1"),
    Rule("Pursoft", "Lavender Vanilla", "24 x 180"),
    Rule("Pursoft", "Bathroom Toilet R - Unscented", "24 x 220"),
    Rule("Pursoft", "Green Tea", "24 x 180"),
    Rule("Pursoft", "Citrus Verbena", "24 x 180"),
    Rule("Pursoft", "Bathroom Toilet R - Unscented", "10 x 220"),
    Rule("Pursoft", "Bathroom Toilet R - Unscented", "10 x 200"),
    Rule("Pursoft", "Charcoal Floral", "10 x 220"),
    Rule("Pursoft", "Lavender Vanilla", "10 x 180"),
    Rule("Pursoft", "Citrus Verbena", "10 x 180"),
    Rule("Pursoft", "Green Tea", "10 x 180"),
    Rule("Pursoft", "Charcoal Floral", "24 x 220")
  ]

  /** Line 57 */
  const TempoRules: seq<Rule> := [
    Rule("Tempo", "Bathroom Tissue - Neutral", "10 x 1")
  ]

  /** Lines 58-63 */
  const VindaRules: seq<Rule> := [
    Rule("Vinda", "Deluxe Smooth Feel Toilet T", "20 x 240"),
    Rule("Vinda", "Deluxe Smooth Feel Mega Val", "24 x 1"),
    Rule("Vinda", "Prestige Bathroom - 4D Emboss Camillia", "16 x 200"),
    Rule("Vinda", "Prestige Toilet Tissue", "8 x 200"),
    Rule("Vinda", "Prestige Bathroom - 4D Emboss Camillia", "8 x 200"),
    Rule("Vinda", "Prestige Bathroom - 4D Emboss Camillia", "8 x 200")
  ]

  /** `KEYWORD_RULES` */
  const KeywordRules: seq<KeywordRule> := [
    KeywordRule("Pursoft", ["green", "tea"], "Green Tea", "24 x 180"),
    KeywordRule("Pursoft", ["lavender", "vanilla"], "Lavender Vanilla", "24 x 180")
  ]

  /** `_clean`: strip, lower-case, then one space per run of non-word
      characters (no trim afterwards). */
  function Clean(s: string): string
  {
    CollapseNonWord(Lower(Strip(s)))
  }

  /** What `_clean` produces: only word characters and single spaces, and
      exactly the word characters of the stripped, lower-cased input. */
  lemma CleanShape(s: string)
    ensures forall k :: 0 <= k < |Clean(s)| ==> IsWordChar(Clean(s)[k]) || Clean(s)[k] == ' '
    ensures forall k :: 0 <= k < |Clean(s)| - 1 ==> !(Clean(s)[k] == ' ' && Clean(s)[k + 1] == ' ')
    ensures WordChars(Clean(s)) == WordChars(Lower(Strip(s)))
  {
    CollapseShape(Lower(Strip(s)), 0, false);
    CollapseKeepsWordChars(Lower(Strip(s)), 0, false);
    assert Lower(Strip(s))[0..] == Lower(Strip(s));
  }

  /** `_clean` keeps every word character of the lower-cased input and adds none. */
  lemma CleanKeepsWordChar(s: string, c: char)
    requires IsWordChar(c)
    ensures c in Clean(s) <==> c in Lower(Strip(s))
  {
    CleanShape(s);
    WordCharIn(Clean(s), c);
    WordCharIn(Lower(Strip(s)), c);
  }

  /** `_clean` does not trim at the end: input that ends in punctuation
      (after stripping whitespace) yields a trailing space. */
  lemma CleanKeepsTrailingSpace(s: string)
    requires Strip(s) != [] && !IsWordChar(Strip(s)[|Strip(s)| - 1])
    ensures Clean(s) != [] && Clean(s)[|Clean(s)| - 1] == ' '
  {
    var t := Lower(Strip(s));
    assert !IsWordChar(t[|t| - 1]);
    CollapseEndsInSpace(t, 0, false);
  }

  /** The case-insensitive comparison key of a brand or a size: `.strip().lower()`. */
  function Key(s: string): string
  {
    Lower(Strip(s))
  }

  predicate IsSkeletonChar(c: char) { IsDigit(c) || c == ' ' || c == 'x' }

  /** `re.sub(r"[^\d x]", "", s)` scanned from index `i`. */
  function SkeletonFrom(s: string, i: nat): string
    requires i <= |s|
    decreases |s| - i
  {
    if i == |s| then []
    else (if IsSkeletonChar(s[i]) then [s[i]] else []) + SkeletonFrom(s, i + 1)
  }

  /** The skeleton keeps exactly the digits, spaces and `x`s, in order. */
  lemma {:induction false} SkeletonKeeps(s: string, i: nat)
    requires i <= |s|
    ensures forall k :: 0 <= k < |SkeletonFrom(s, i)| ==> IsSkeletonChar(SkeletonFrom(s, i)[k])
    ensures forall k :: i <= k < |s| && IsSkeletonChar(s[k]) ==> s[k] in SkeletonFrom(s, i)
    decreases |s| - i
  {
    if i < |s| {
      SkeletonKeeps(s, i + 1);
    }
  }

  /** The digit/`x`/space skeleton of a size string. */
  function Skeleton(s: string): string
  {
    SkeletonFrom(s, 0)
  }

  /** A string of skeleton characters is its own skeleton. */
  lemma {:induction false} SkeletonOfSkeleton(s: string, i: nat)
    requires i <= |s|
    requires forall k :: i <= k < |s| ==> IsSkeletonChar(s[k])
    ensures SkeletonFrom(s, i) == s[i..]
    decreases |s| - i
  {
    if i < |s| {
      SkeletonOfSkeleton(s, i + 1);
    }
  }

  /** A lower-case string with no outer whitespace is its own key. */
  lemma KeyOfKey(s: string)
    requires s == [] || (!IsSpace(s[0]) && !IsSpace(s[|s| - 1]))
    requires forall k :: 0 <= k < |s| ==> !('A' <= s[k] <= 'Z')
    ensures Key(s) == s
  {
    StripNoOuterSpace(s);
    LowerOfLower(s);
  }

  /** `_matches`: the brand gate, then exact size, description containment
      or skeleton containment, in that order. */
  predicate Matches(rule: Rule, record: ProductRecord)
  {
    var rsize := Key(OrElse(record.size, ""));
    && Key(rule.brand) == Key(record.brand)
    && (|| (rsize != [] && Key(rule.size) == rsize)
        || Contains(Clean(record.description), Clean(rule.description))
        || (Skeleton(rsize) != [] && Contains(Skeleton(rsize), Skeleton(Lower(rule.size)))))
  }

  /** The fallback test: brand (record side stripped) and every keyword in
      the raw lower-cased description. */
  predicate KeywordMatches(kr: KeywordRule, record: ProductRecord)
  {
    && Lower(Strip(record.brand)) == Lower(kr.brand)
    && forall k | 0 <= k < |kr.keywords| :: Contains(Lower(record.description), kr.keywords[k])
  }

  /** Index of the first element at or after `i` that satisfies `p`. */
  function FirstFrom<T>(xs: seq<T>, p: T -> bool, i: nat): (r: Option<nat>)
    requires i <= |xs|
    ensures r.Some? ==> i <= r.value < |xs| && p(xs[r.value])
    ensures r.Some? ==> forall j :: i <= j < r.value ==> !p(xs[j])
    ensures r.None? ==> forall j :: i <= j < |xs| ==> !p(xs[j])
    decreases |xs| - i
  {
    if i == |xs| then None
    else if p(xs[i]) then Some(i)
    else FirstFrom(xs, p, i + 1)
  }

  /** Index of the first rule at or after `i` that matches, in table order. */
  function FirstMatchFrom(rules: seq<Rule>, record: ProductRecord, i: nat): (r: Option<nat>)
    requires i <= |rules|
    ensures r.Some? ==> i <= r.value < |rules| && Matches(rules[r.value], record)
    ensures r.Some? ==> forall j :: i <= j < r.value ==> !Matches(rules[j], record)
    ensures r.None? ==> forall j :: i <= j < |rules| ==> !Matches(rules[j], record)
  {
    FirstFrom(rules, rule => Matches(rule, record), i)
  }

  /** Index of the first keyword rule at or after `i` that fires. */
  function FirstKeywordMatchFrom(rules: seq<KeywordRule>, record: ProductRecord, i: nat): (r: Option<nat>)
    requires i <= |rules|
    ensures r.Some? ==> i <= r.value < |rules| && KeywordMatches(rules[r.value], record)
    ensures r.Some? ==> forall j :: i <= j < r.value ==> !KeywordMatches(rules[j], record)
    ensures r.None? ==> forall j :: i <= j < |rules| ==> !KeywordMatches(rules[j], record)
  {
    FirstFrom(rules, kr => KeywordMatches(kr, record), i)
  }

  /** `dataclasses.replace(record, description=..., size=...)` */
  function Canonical(record: ProductRecord, description: string, size: string): ProductRecord
  {
    record.(description := description, size := Some(size))
  }

  /** `normalize_record`: the first matching table rule wins; the keyword
      tier is consulted only when every table rule fails; otherwise None.
      A rewritten record differs from its input in description and size only. */
  function NormalizeRecord(record: ProductRecord): (r: Option<ProductRecord>)
    ensures r.Some? ==> r.value.(description := record.description, size := record.size) == record
    ensures r.Some? ==> r.value.size.Some?
  {
    match FirstMatchFrom(NormalizationMap, record, 0)
    case Some(i) => Some(Canonical(record, NormalizationMap[i].description, NormalizationMap[i].size))
    case None =>
      match FirstKeywordMatchFrom(KeywordRules, record, 0)
      case Some(k) => Some(Canonical(record, KeywordRules[k].description, KeywordRules[k].size))
      case None => None
  }

  /** Table tier: when some table rule matches, the result is the rewrite
      by the first one in table order, whatever later rules say. */
  lemma FirstTableRuleWins(record: ProductRecord, i: nat)
    requires i < |NormalizationMap| && Matches(NormalizationMap[i], record)
    requires forall j :: 0 <= j < i ==> !Matches(NormalizationMap[j], record)
    ensures NormalizeRecord(record) == Some(Canonical(record, NormalizationMap[i].description, NormalizationMap[i].size))
  {
    var f := FirstMatchFrom(NormalizationMap, record, 0);
    assert f == Some(i) by {
      if f.Some? && f.value != i {
        assert f.value < i || i < f.value;
      }
    }
  }

  /** Keyword tier: consulted only when no table rule matches; then the
      record is rewritten exactly when some keyword rule fires. */
  lemma KeywordTierOnlyAfterTable(record: ProductRecord)
    requires forall i :: 0 <= i < |NormalizationMap| ==> !Matches(NormalizationMap[i], record)
    ensures NormalizeRecord(record).Some? <==> exists k :: 0 <= k < |KeywordRules| && KeywordMatches(KeywordRules[k], record)
    ensures NormalizeRecord(record).Some? ==>
              exists k :: 0 <= k < |KeywordRules| && KeywordMatches(KeywordRules[k], record)
                          && NormalizeRecord(record) == Some(Canonical(record, KeywordRules[k].description, KeywordRules[k].size))
  {
    var f := FirstMatchFrom(NormalizationMap, record, 0);
    assert f.None?;
    var g := FirstKeywordMatchFrom(KeywordRules, record, 0);
    if g.Some? {
      assert NormalizeRecord(record) == Some(Canonical(record, KeywordRules[g.value].description, KeywordRules[g.value].size));
    } else {
      assert NormalizeRecord(record).None?;
    }
  }

  /** Keyword tier, positively: with no table match, the first keyword rule
      that fires supplies the canonical pair. */
  lemma FirstKeywordRuleWins(record: ProductRecord, k: nat)
    requires forall i :: 0 <= i < |NormalizationMap| ==> !Matches(NormalizationMap[i], record)
    requires k < |KeywordRules| && KeywordMatches(KeywordRules[k], record)
    requires forall j :: 0 <= j < k ==> !KeywordMatches(KeywordRules[j], record)
    ensures NormalizeRecord(record) == Some(Canonical(record, KeywordRules[k].description, KeywordRules[k].size))
  {
    var f := FirstMatchFrom(NormalizationMap, record, 0);
    assert f.None?;
    var g := FirstKeywordMatchFrom(KeywordRules, record, 0);
    assert g == Some(k);
  }

  /** Every rewrite is canonical: the new description and size are the pair
      of one table row or of one keyword rule whose brand gate the record passed. */
  lemma CanonicalOutput(record: ProductRecord)
    requires NormalizeRecord(record).Some?
    ensures (exists i :: 0 <= i < |NormalizationMap| && Key(NormalizationMap[i].brand) == Key(record.brand)
               && NormalizeRecord(record) == Some(Canonical(record, NormalizationMap[i].description, NormalizationMap[i].size)))
         || (exists k :: 0 <= k < |KeywordRules| && Lower(Strip(record.brand)) == Lower(KeywordRules[k].brand)
               && NormalizeRecord(record) == Some(Canonical(record, KeywordRules[k].description, KeywordRules[k].size)))
  {
    var f := FirstMatchFrom(NormalizationMap, record, 0);
    if f.Some? {
      assert Matches(NormalizationMap[f.value], record);
    } else {
      var g := FirstKeywordMatchFrom(KeywordRules, record, 0);
      assert KeywordMatches(KeywordRules[g.value], record);
    }
  }

  /** With no usable size, a rule matches exactly when the brand gate passes
      and the cleaned rule description occurs in the cleaned record description. */
  lemma EmptySizeMatchesByDescription(rule: Rule, record: ProductRecord)
    requires Key(OrElse(record.size, "")) == []
    ensures Matches(rule, record) <==>
              Key(rule.brand) == Key(record.brand) && Contains(Clean(record.description), Clean(rule.description))
  {
    assert Skeleton([]) == [];
  }

  /** The last table row repeats the one before it, so it can never be the
      first match: the duplicate is dead. */
  lemma DuplicateRowNeverChosen(record: ProductRecord)
    ensures NormalizationMap[44] == NormalizationMap[45]
    ensures FirstMatchFrom(NormalizationMap, record, 0) != Some(45)
  {
    assert NormalizationMap[44] == NormalizationMap[45];
  }

  /** The `matched` list of `normalize_records`: the normalised forms of
      the records that match, in input order. */
  function MatchedOf(records: seq<ProductRecord>): seq<ProductRecord>
  {
    if records == [] then []
    else
      var last := records[|records| - 1];
      MatchedOf(records[..|records| - 1])
        + (match NormalizeRecord(last) case Some(n) => [n] case None => [])
  }

  /** The `unmatched` list of `normalize_records`: the original records
      that match nothing, in input order. */
  function UnmatchedOf(records: seq<ProductRecord>): seq<ProductRecord>
  {
    if records == [] then []
    else
      var last := records[|records| - 1];
      UnmatchedOf(records[..|records| - 1])
        + (if NormalizeRecord(last).None? then [last] else [])
  }

  /** One more input extends exactly one of the two lists. */
  lemma PartitionStep(records: seq<ProductRecord>, i: nat)
    requires i < |records|
    ensures var r, nr := records[i], NormalizeRecord(records[i]);
            && MatchedOf(records[..i + 1]) == MatchedOf(records[..i]) + (if nr.Some? then [nr.value] else [])
            && UnmatchedOf(records[..i + 1]) == UnmatchedOf(records[..i]) + (if nr.None? then [r] else [])
  {
    assert records[..i + 1][..i] == records[..i];
  }

  /** Every input lands in exactly one of the two lists. */
  lemma {:induction false} PartitionCount(records: seq<ProductRecord>)
    ensures |MatchedOf(records)| + |UnmatchedOf(records)| == |records|
  {
    if records != [] {
      PartitionCount(records[..|records| - 1]);
    }
  }

  /** `unmatched` holds precisely the original inputs that match nothing. */
  lemma {:induction false} UnmatchedExactly(records: seq<ProductRecord>)
    ensures forall x :: x in UnmatchedOf(records) <==> x in records && NormalizeRecord(x).None?
  {
    if records != [] {
      var init := records[..|records| - 1];
      UnmatchedExactly(init);
      assert records == init + [records[|records| - 1]];
    }
  }

  lemma {:induction false} UnmatchedPicksOut(records: seq<ProductRecord>)
    ensures PicksOut(UnmatchedOf(records), records, Positions(records, x => NormalizeRecord(x).None?),
                     x => NormalizeRecord(x).None?, x => x)
  {
    if records != [] {
      var n := |records| - 1;
      UnmatchedPicksOut(records[..n]);
      PicksOutGrow(UnmatchedOf(records[..n]), records, Positions(records[..n], x => NormalizeRecord(x).None?),
                   x => NormalizeRecord(x).None?, x => x);
    }
  }

  /** `unmatched` is the input at strictly increasing positions, and those
      positions are exactly the inputs that match nothing: the input order is
      kept, with one entry per unmatched input. */
  lemma UnmatchedInOrder(records: seq<ProductRecord>)
    ensures var idx, un := Positions(records, x => NormalizeRecord(x).None?), UnmatchedOf(records);
            && |idx| == |un|
            && (forall m :: 0 <= m < |idx| ==> un[m] == records[idx[m]])
            && (forall m, m' :: 0 <= m < m' < |idx| ==> idx[m] < idx[m'])
            && (forall i :: 0 <= i < |records| ==> (i in idx <==> NormalizeRecord(records[i]).None?))
  {
    UnmatchedPicksOut(records);
  }

  lemma {:induction false} MatchedPicksOut(records: seq<ProductRecord>)
    ensures PicksOut(MatchedOf(records), records, Positions(records, x => NormalizeRecord(x).Some?),
                     x => NormalizeRecord(x).Some?, x => match NormalizeRecord(x) case Some(n) => n case None => x)
  {
    if records != [] {
      var n := |records| - 1;
      MatchedPicksOut(records[..n]);
      PicksOutGrow(MatchedOf(records[..n]), records, Positions(records[..n], x => NormalizeRecord(x).Some?),
                   x => NormalizeRecord(x).Some?, x => match NormalizeRecord(x) case Some(n) => n case None => x);
    }
  }

  /** `matched` is the normalised forms of the inputs at strictly increasing
      positions, and those positions are exactly the inputs that match: the
      input order is kept, with one entry per matching input. */
  lemma MatchedInOrder(records: seq<ProductRecord>)
    ensures var idx, ma := Positions(records, x => NormalizeRecord(x).Some?), MatchedOf(records);
            && |idx| == |ma|
            && (forall m :: 0 <= m < |idx| ==> NormalizeRecord(records[idx[m]]) == Some(ma[m]))
            && (forall m, m' :: 0 <= m < m' < |idx| ==> idx[m] < idx[m'])
            && (forall i :: 0 <= i < |records| ==> (i in idx <==> NormalizeRecord(records[i]).Some?))
  {
    MatchedPicksOut(records);
  }

  /** `matched` holds precisely the normalised forms of the inputs that match. */
  lemma {:induction false} MatchedExactly(records: seq<ProductRecord>)
    ensures forall y :: y in MatchedOf(records) <==> exists x :: x in records && NormalizeRecord(x) == Some(y)
  {
    if records != [] {
      var init := records[..|records| - 1];
      var last := records[|records| - 1];
      MatchedExactly(init);
      assert records == init + [last];
      forall y | y in MatchedOf(records)
        ensures exists x :: x in records && NormalizeRecord(x) == Some(y)
      {
        if y in MatchedOf(init) {
          var x :| x in init && NormalizeRecord(x) == Some(y);
          assert x in records;
        } else {
          assert NormalizeRecord(last) == Some(y);
        }
      }
      forall y | exists x :: x in records && NormalizeRecord(x) == Some(y)
        ensures y in MatchedOf(records)
      {
        var x :| x in records && NormalizeRecord(x) == Some(y);
        if x != last {
          assert x in init;
        }
      }
    }
  }

  /** `normalize_records` */
  method NormalizeRecords(records: seq<ProductRecord>) returns (matched: seq<ProductRecord>, unmatched: seq<ProductRecord>)
    ensures matched == MatchedOf(records) && unmatched == UnmatchedOf(records)
    ensures |matched| + |unmatched| == |records|
  {
    matched, unmatched := [], [];
    var i := 0;
    while i < |records|
      invariant 0 <= i <= |records|
      invariant matched == MatchedOf(records[..i])
      invariant unmatched == UnmatchedOf(records[..i])
    {
      var r := records[i];
      PartitionStep(records, i);
      var nr := NormalizeRecord(r);
      if nr.Some? {
        matched := matched + [nr.value];
      } else {
        unmatched := unmatched + [r];
      }
      i := i + 1;
    }
    assert records[..i] == records;
    PartitionCount(records);
  }
}
