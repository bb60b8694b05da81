/** Concrete behaviours of the reconciliation table in scrapers/normalizer.py:
    which row wins for representative listings, and what the matcher's
    looseness does to them. Scenario lemmas take the record as a parameter
    and fix only the fields the matcher reads; the string facts they rest on
    are computed by small lemmas over literals. */
module NormalizerCases {
  import opened Text
  import opened Models
  import opened Normalizer

  /** Two brands whose first two characters differ once lower-cased (and
      neither starts with whitespace) have different keys. */
  predicate HeadsDiffer(a: string, b: string)
  {
    && |a| >= 2 && !IsSpace(a[0]) && !IsSpace(a[1])
    && |b| >= 2 && !IsSpace(b[0]) && !IsSpace(b[1])
    && (LowerChar(a[0]) != LowerChar(b[0]) || LowerChar(a[1]) != LowerChar(b[1]))
  }

  lemma KeyHeads(b: string)
    requires |b| >= 2 && !IsSpace(b[0]) && !IsSpace(b[1])
    ensures |Key(b)| >= 2 && Key(b)[0] == LowerChar(b[0]) && Key(b)[1] == LowerChar(b[1])
  {
  }

  /** The brand gate rules out every row in `[lo, hi)` whose brand differs
      from the record's in its first two characters. */
  lemma OtherBrandRows(r: ProductRecord, lo: nat, hi: nat)
    requires lo <= hi <= |NormalizationMap|
    requires forall j | lo <= j < hi :: HeadsDiffer(NormalizationMap[j].brand, r.brand)
    ensures forall j | lo <= j < hi :: !Matches(NormalizationMap[j], r)
  {
    forall j | lo <= j < hi
      ensures !Matches(NormalizationMap[j], r)
    {
      KeyHeads(NormalizationMap[j].brand);
      KeyHeads(r.brand);
    }
  }

  // The brands of the table, compared with a few record brands a block of
  // rows at a time.

  lemma KleenexHeads()
    ensures forall j | 0 <= j < 10 :: HeadsDiffer(NormalizationMap[j].brand, "Kleenex")
  {
  }

  lemma NooTreesHeads()
    ensures forall j | 0 <= j < 10 :: HeadsDiffer(NormalizationMap[j].brand, "NOOTREES")
    ensures forall j | 10 <= j < 21 :: HeadsDiffer(NormalizationMap[j].brand, "NOOTREES")
  {
    NooTreesHeadsLate();
  }

  lemma NooTreesHeadsLate()
    ensures forall j | 10 <= j < 21 :: HeadsDiffer(NormalizationMap[j].brand, "NOOTREES")
  {
  }

  lemma AcmeHeads()
    ensures forall j | 0 <= j < |NormalizationMap| :: HeadsDiffer(NormalizationMap[j].brand, "Acme")
  {
    AcmeHeadsTo7();
    AcmeHeadsFrom7();
    AcmeHeadsFrom14();
    AcmeHeadsFrom22();
    AcmeHeadsFrom30();
    AcmeHeadsFrom38();
  }

  lemma AcmeHeadsTo7()
    ensures forall j | 0 <= j < 7 :: HeadsDiffer(NormalizationMap[j].brand, "Acme")
  {
  }

  lemma AcmeHeadsFrom7()
    ensures forall j | 7 <= j < 14 :: HeadsDiffer(NormalizationMap[j].brand, "Acme")
  {
  }

  lemma AcmeHeadsFrom14()
    ensures forall j | 14 <= j < 22 :: HeadsDiffer(NormalizationMap[j].brand, "Acme")
  {
  }

  lemma AcmeHeadsFrom22()
    ensures forall j | 22 <= j < 30 :: HeadsDiffer(NormalizationMap[j].brand, "Acme")
  {
  }

  lemma AcmeHeadsFrom30()
    ensures forall j | 30 <= j < 38 :: HeadsDiffer(NormalizationMap[j].brand, "Acme")
  {
  }

  lemma AcmeHeadsFrom38()
    ensures forall j | 38 <= j < 46 :: HeadsDiffer(NormalizationMap[j].brand, "Acme")
  {
  }

  lemma PursoftHeads()
    ensures forall j | 0 <= j < 27 || 39 <= j < 46 :: HeadsDiffer(NormalizationMap[j].brand, "Pursoft")
  {
    PursoftHeadsTo7();
    PursoftHeadsFrom7();
    PursoftHeadsFrom14();
    PursoftHeadsFrom21();
    PursoftHeadsFrom39();
  }

  lemma PursoftHeadsTo7()
    ensures forall j | 0 <= j < 7 :: HeadsDiffer(NormalizationMap[j].brand, "Pursoft")
  {
  }

  lemma PursoftHeadsFrom7()
    ensures forall j | 7 <= j < 14 :: HeadsDiffer(NormalizationMap[j].brand, "Pursoft")
  {
  }

  lemma PursoftHeadsFrom14()
    ensures forall j | 14 <= j < 21 :: HeadsDiffer(NormalizationMap[j].brand, "Pursoft")
  {
  }

  lemma PursoftHeadsFrom21()
    ensures forall j | 21 <= j < 27 :: HeadsDiffer(NormalizationMap[j].brand, "Pursoft")
  {
  }

  lemma PursoftHeadsFrom39()
    ensures forall j | 39 <= j < 46 :: HeadsDiffer(NormalizationMap[j].brand, "Pursoft")
  {
  }

  /** The record's description lacks a word character that the rule's has
      (in either case), so the cleaned rule description cannot occur in it. */
  lemma DescriptionLacks(rule: string, record: string, c: char, k: nat)
    requires 0 <= k < |rule| && !IsSpace(rule[0]) && !IsSpace(rule[|rule| - 1])
    requires IsWordChar(c) && LowerChar(rule[k]) == c
    requires c !in Lower(Strip(record))
    ensures !Contains(Clean(record), Clean(rule))
  {
    StripNoOuterSpace(rule);
    assert Lower(Strip(rule))[k] == c;
    CleanKeepsWordChar(rule, c);
    CleanKeepsWordChar(record, c);
    NotContainsChar(Clean(record), Clean(rule), c);
  }

  /** A size written as digits, `x`s and inner spaces is its own key, its own
      lower-case form and its own skeleton. */
  lemma CanonicalSize(s: string)
    requires s != [] && s[0] != ' ' && s[|s| - 1] != ' '
    requires forall k :: 0 <= k < |s| ==> IsSkeletonChar(s[k])
    ensures Key(s) == s && Lower(s) == s && Skeleton(s) == s
  {
    LowerOfLower(s);
    KeyOfKey(s);
    SkeletonOfSkeleton(s, 0);
  }

  lemma ContainsSelf(s: string)
    ensures Contains(s, s)
  {
    assert s[0..|s|] == s;
    ContainsWitness(s, s, 0);
  }

  // ---------------------------------------------------------------------
  // First match wins: an exact size match further down does not help.

  lemma AloeLowered(d: string)
    requires d == "Ultra Soft Aloe"
    ensures Lower(Strip(d)) == "ultra soft aloe"
  {
    StripNoOuterSpace(d);
  }

  /** A Kleenex row whose size differs from 22 x 190 in some digit and whose
      description has a character "ultra soft aloe" lacks. */
  lemma AloeSkipsRow(r: ProductRecord, rule: Rule, c: char, k: nat)
    requires r.brand == "Kleenex" && r.description == "Ultra Soft Aloe" && r.size == Some("22 x 190")
    requires |rule.size| == 8 && rule.size != "22 x 190"
    requires rule.size[0] != ' ' && rule.size[7] != ' '
    requires forall i | 0 <= i < 8 :: IsSkeletonChar(rule.size[i])
    requires var d := rule.description;
             0 <= k < |d| && !IsSpace(d[0]) && !IsSpace(d[|d| - 1]) && IsWordChar(c) && LowerChar(d[k]) == c
    requires c !in "ultra soft aloe"
    ensures !Matches(rule, r)
  {
    SizeSkipsRow(r.size.value, rule.size);
    AloeLowered(r.description);
    RuleSkipsRecord(rule, r, r.size.value, c, k);
  }

  /** A rule misses a record whose size it neither equals nor contains and
      whose description lacks one of the rule's word characters. */
  lemma RuleSkipsRecord(rule: Rule, record: ProductRecord, size: string, c: char, k: nat)
    requires record.size == Some(size)
    requires Key(rule.size) != Key(size)
    requires !Contains(Skeleton(Key(size)), Skeleton(Lower(rule.size)))
    requires var d := rule.description;
             0 <= k < |d| && !IsSpace(d[0]) && !IsSpace(d[|d| - 1]) && IsWordChar(c) && LowerChar(d[k]) == c
    requires c !in Lower(Strip(record.description))
    ensures !Matches(rule, record)
  {
    DescriptionLacks(rule.description, record.description, c, k);
  }

  /** Two canonical sizes of the same length that differ neither equal nor
      contain each other, as keys or as skeletons. */
  lemma SizeSkipsRow(size: string, other: string)
    requires size == "22 x 190"
    requires |other| == 8 && other != size && other[0] != ' ' && other[7] != ' '
    requires forall i | 0 <= i < 8 :: IsSkeletonChar(other[i])
    ensures Key(size) == size && Key(other) != size
    ensures !Contains(Skeleton(Key(size)), Skeleton(Lower(other)))
  {
    CanonicalSize(size);
    CanonicalSize(other);
    NotContainsSameLength(size, other);
  }

  lemma AloeSkipsRow10(r: ProductRecord)
    requires r.brand == "Kleenex" && r.description == "Ultra Soft Aloe" && r.size == Some("22 x 190")
    ensures !Matches(NormalizationMap[10], r)
  {
    assert NormalizationMap[10] == Rule("Kleenex", "Toilet Rolls - Ultra Soft", "20 x 200");
    AloeSkipsRow(r, NormalizationMap[10], 'i', 2);
  }

  lemma AloeSkipsRow11(r: ProductRecord)
    requires r.brand == "Kleenex" && r.description == "Ultra Soft Aloe" && r.size == Some("22 x 190")
    ensures !Matches(NormalizationMap[11], r)
  {
    assert NormalizationMap[11] == Rule("Kleenex", "Ultra Soft Cottony", "30 x 200");
    AloeSkipsRow(r, NormalizationMap[11], 'c', 11);
  }

  lemma AloeSkipsRow12(r: ProductRecord)
    requires r.brand == "Kleenex" && r.description == "Ultra Soft Aloe" && r.size == Some("22 x 190")
    ensures !Matches(NormalizationMap[12], r)
  {
    assert NormalizationMap[12] == Rule("Kleenex", "Ultra Soft & Thick", "20 x 180");
    AloeSkipsRow(r, NormalizationMap[12], 'h', 14);
  }

  /** Rows 13 and 15 both accept the listing: 13 by description, 15 by its
      exact size. */
  lemma AloeMatchesRows13And15(r: ProductRecord)
    requires r.brand == "Kleenex" && r.description == "Ultra Soft Aloe" && r.size == Some("22 x 190")
    ensures Matches(NormalizationMap[13], r) && Matches(NormalizationMap[15], r)
    ensures NormalizationMap[13] == Rule("Kleenex", "Ultra Soft Aloe", "20 x 190")
  {
    assert NormalizationMap[13] == Rule("Kleenex", "Ultra Soft Aloe", "20 x 190");
    assert NormalizationMap[15] == Rule("Kleenex", "Ultra Soft Aloe", "22 x 190");
    MatchByDescription(NormalizationMap[13], r);
    CanonicalSize(r.size.value);
    MatchBySize(NormalizationMap[15], r, r.size.value);
  }

  /** A rule of the record's brand with the record's own description matches it. */
  lemma MatchByDescription(rule: Rule, record: ProductRecord)
    requires rule.brand == record.brand && rule.description == record.description
    ensures Matches(rule, record)
  {
    ContainsSelf(Clean(record.description));
  }

  /** A rule of the record's brand whose size key equals the record's
      non-empty size key matches it. */
  lemma MatchBySize(rule: Rule, record: ProductRecord, size: string)
    requires Key(rule.brand) == Key(record.brand) && record.size == Some(size)
    requires Key(size) != [] && Key(rule.size) == Key(size)
    ensures Matches(rule, record)
  {
  }

  lemma KleenexSkipsRowsBefore13(r: ProductRecord)
    requires r.brand == "Kleenex" && r.description == "Ultra Soft Aloe" && r.size == Some("22 x 190")
    ensures forall j | 0 <= j < 13 :: !Matches(NormalizationMap[j], r)
  {
    KleenexHeads();
    OtherBrandRows(r, 0, 10);
    forall j | 10 <= j < 13
      ensures !Matches(NormalizationMap[j], r)
    {
      if j == 10 {
        AloeSkipsRow10(r);
      } else if j == 11 {
        AloeSkipsRow11(r);
      } else {
        AloeSkipsRow12(r);
      }
    }
  }

  /** A Kleenex "Ultra Soft Aloe" listing of size 22 x 190 matches row 15
      exactly, yet row 13 (the same description, 20 x 190) comes first and
      rewrites its size. */
  lemma FirstMatchBeatsExactSize(r: ProductRecord)
    requires r.brand == "Kleenex" && r.description == "Ultra Soft Aloe" && r.size == Some("22 x 190")
    ensures Matches(NormalizationMap[15], r)
    ensures NormalizeRecord(r) == Some(r.(size := Some("20 x 190")))
  {
    KleenexSkipsRowsBefore13(r);
    AloeMatchesRows13And15(r);
    FirstTableRuleWins(r, 13);
  }

  // ---------------------------------------------------------------------
  // Punctuation is looseness too: "Kleenex: Green-Tea!!" reaches row 18.

  lemma GreenTeaListingLowered(d: string)
    requires d == "Kleenex: Green-Tea!!"
    ensures Lower(Strip(d)) == "kleenex: green-tea!!"
  {
    StripNoOuterSpace(d);
  }

  /** Each run of punctuation becomes one space, the last one included. */
  lemma GreenTeaListingCleaned(d: string)
    requires d == "Kleenex: Green-Tea!!"
    ensures Clean(d) == "kleenex green tea "
  {
    GreenTeaListingLowered(d);
    GreenTeaListingCollapsed(Lower(Strip(d)));
  }

  lemma GreenTeaListingCollapsed(t: string)
    requires t == "kleenex: green-tea!!"
    ensures CollapseNonWord(t) == "kleenex green tea "
  {
    GreenTeaTailCollapsed(t);
    CollapseGapRun(t, 7, 9, false);
    CollapseWordRun(t, 0, 7, false);
    assert t[0..7] == "kleenex";
  }

  lemma GreenTeaTailCollapsed(t: string)
    requires t == "kleenex: green-tea!!"
    ensures CollapseFrom(t, 9, true) == "green tea "
  {
    GreenTeaEndCollapsed(t);
    CollapseGapRun(t, 14, 15, false);
    CollapseWordRun(t, 9, 14, true);
    assert t[9..14] == "green";
  }

  lemma GreenTeaEndCollapsed(t: string)
    requires t == "kleenex: green-tea!!"
    ensures CollapseFrom(t, 15, true) == "tea "
  {
    CollapseGapRun(t, 18, 20, false);
    CollapseWordRun(t, 15, 18, true);
    assert t[15..18] == "tea";
  }

  /** A Kleenex row whose description has an "o" misses the listing, which
      has none and no size. */
  lemma GreenTeaSkipsRow(r: ProductRecord, rule: Rule, k: nat)
    requires r.brand == "Kleenex" && r.description == "Kleenex: Green-Tea!!" && r.size == None
    requires var d := rule.description;
             0 <= k < |d| && !IsSpace(d[0]) && !IsSpace(d[|d| - 1]) && LowerChar(d[k]) == 'o'
    ensures !Matches(rule, r)
  {
    GreenTeaListingLowered(r.description);
    DescriptionLacks(rule.description, r.description, 'o', k);
    EmptySizeMatchesByDescription(rule, r);
  }

  /** Every Kleenex description before Green Tea has "Soft" or "Toilet". */
  lemma KleenexDescriptionsBefore18(j: nat)
    requires 10 <= j < 18
    ensures NormalizationMap[j].description in
              {"Toilet Rolls - Ultra Soft", "Ultra Soft Cottony", "Ultra Soft & Thick", "Ultra Soft Aloe",
               "Toilet Rolls (4ply) + Moist Wipes", "Supreme Soft"}
  {
  }

  lemma GreenTeaSkipsKleenexRow(r: ProductRecord, rule: Rule)
    requires r.brand == "Kleenex" && r.description == "Kleenex: Green-Tea!!" && r.size == None
    requires rule.description in
               {"Toilet Rolls - Ultra Soft", "Ultra Soft Cottony", "Ultra Soft & Thick", "Ultra Soft Aloe",
                "Toilet Rolls (4ply) + Moist Wipes", "Supreme Soft"}
    ensures !Matches(rule, r)
  {
    var d := rule.description;
    if d == "Supreme Soft" {
      GreenTeaSkipsRow(r, rule, 9);
    } else if d == "Toilet Rolls - Ultra Soft" || d == "Toilet Rolls (4ply) + Moist Wipes" {
      GreenTeaSkipsToiletRow(r, rule);
    } else {
      GreenTeaSkipsUltraSoftRow(r, rule);
    }
  }

  lemma GreenTeaSkipsToiletRow(r: ProductRecord, rule: Rule)
    requires r.brand == "Kleenex" && r.description == "Kleenex: Green-Tea!!" && r.size == None
    requires rule.description == "Toilet Rolls - Ultra Soft" || rule.description == "Toilet Rolls (4ply) + Moist Wipes"
    ensures !Matches(rule, r)
  {
    GreenTeaSkipsRow(r, rule, 1);
  }

  lemma GreenTeaSkipsUltraSoftRow(r: ProductRecord, rule: Rule)
    requires r.brand == "Kleenex" && r.description == "Kleenex: Green-Tea!!" && r.size == None
    requires rule.description in {"Ultra Soft Cottony", "Ultra Soft & Thick", "Ultra Soft Aloe"}
    ensures !Matches(rule, r)
  {
    GreenTeaSkipsRow(r, rule, 7);
  }

  lemma GreenTeaSkipsRowsBefore18(r: ProductRecord)
    requires r.brand == "Kleenex" && r.description == "Kleenex: Green-Tea!!" && r.size == None
    ensures forall j | 0 <= j < 18 :: !Matches(NormalizationMap[j], r)
  {
    KleenexHeads();
    OtherBrandRows(r, 0, 10);
    forall j | 10 <= j < 18
      ensures !Matches(NormalizationMap[j], r)
    {
      KleenexDescriptionsBefore18(j);
      GreenTeaSkipsKleenexRow(r, NormalizationMap[j]);
    }
  }

  /** Row 18 takes the listing by description. */
  lemma GreenTeaMatchesRow18(r: ProductRecord)
    requires r.brand == "Kleenex" && r.description == "Kleenex: Green-Tea!!" && r.size == None
    ensures NormalizationMap[18] == Rule("Kleenex", "Green Tea", "20 x 190")
    ensures Matches(NormalizationMap[18], r)
  {
    assert NormalizationMap[18] == Rule("Kleenex", "Green Tea", "20 x 190");
    GreenTeaInListing(r.description, NormalizationMap[18].description);
    EmptySizeMatchesByDescription(NormalizationMap[18], r);
  }

  lemma GreenTeaInListing(d: string, g: string)
    requires d == "Kleenex: Green-Tea!!" && g == "Green Tea"
    ensures Contains(Clean(d), Clean(g))
  {
    GreenTeaListingCleaned(d);
    GreenTeaCleaned(g);
    assert "kleenex green tea " == "kleenex " + "green tea" + " ";
    ContainsInMiddle("kleenex ", "green tea", " ");
  }

  /** A Kleenex listing "Kleenex: Green-Tea!!" with no size is rewritten to
      row 18, Green Tea, 20 x 190: cleaning turns its punctuation into
      spaces, so "green tea" occurs in it, and every earlier Kleenex row has
      an "o" it lacks. */
  lemma PunctuatedGreenTeaMatches(r: ProductRecord)
    requires r.brand == "Kleenex" && r.description == "Kleenex: Green-Tea!!" && r.size == None
    ensures NormalizeRecord(r) == Some(r.(description := "Green Tea", size := Some("20 x 190")))
  {
    GreenTeaSkipsRowsBefore18(r);
    GreenTeaMatchesRow18(r);
    FirstTableRuleWins(r, 18);
  }

  // ---------------------------------------------------------------------
  // The brand gate is case-insensitive.

  lemma NooTreesKeys(b: string)
    requires b == "NOOTREES"
    ensures Key(b) == Key("NooTrees")
  {
    StripNoOuterSpace(b);
    StripNoOuterSpace("NooTrees");
  }

  /** "NOOTREES" with the exact size of row 21 gets its canonical description. */
  lemma BrandIgnoresCase(r: ProductRecord)
    requires r.brand == "NOOTREES" && r.size == Some("10 x 220")
    ensures NormalizeRecord(r) == Some(r.(description := "Bamboo Toilet Tissue"))
  {
    NooTreesHeads();
    OtherBrandRows(r, 0, 21);
    NooTreesKeys(r.brand);
    assert NormalizationMap[21] == Rule("NooTrees", "Bamboo Toilet Tissue", "10 x 220");
    CanonicalSize(r.size.value);
    MatchBySize(NormalizationMap[21], r, r.size.value);
    FirstTableRuleWins(r, 21);
  }

  /** A brand the table does not know is never rewritten, and the batch
      partition passes it through unchanged. */
  lemma UnknownBrandUnmatched(r: ProductRecord)
    requires r.brand == "Acme"
    ensures NormalizeRecord(r) == None
    ensures UnmatchedOf([r]) == [r] && MatchedOf([r]) == []
  {
    AcmeHeads();
    OtherBrandRows(r, 0, |NormalizationMap|);
    StripNoOuterSpace(r.brand);
    assert Lower(r.brand) != Lower("Pursoft");
    KeywordTierOnlyAfterTable(r);
    assert [r][..0] == [];
  }

  // ---------------------------------------------------------------------
  // The keyword tier, and what happens when its output is normalised again.

  lemma RollLowered(d: string)
    requires d == "Pursoft GreenTea Roll"
    ensures Lower(Strip(d)) == "pursoft greentea roll" && Lower(d) == "pursoft greentea roll"
  {
    StripNoOuterSpace(d);
  }

  lemma RollCleaned(d: string)
    requires d == "Pursoft GreenTea Roll"
    ensures Clean(d) == "pursoft greentea roll"
  {
    RollLowered(d);
    CollapseSingleSpaced("pursoft greentea roll", 0, false);
  }

  lemma GreenTeaCleaned(g: string)
    requires g == "Green Tea"
    ensures Clean(g) == "green tea"
  {
    StripNoOuterSpace(g);
    assert Lower(g) == "green tea";
    CollapseSingleSpaced("green tea", 0, false);
  }

  /** Cleaned, "Pursoft GreenTea Roll" has "g" at index 8 only, followed by
      "reent", so "green tea" occurs nowhere in it. */
  lemma GreenTeaNotInRoll(d: string, g: string)
    requires d == "Pursoft GreenTea Roll" && g == "Green Tea"
    ensures !Contains(Clean(d), Clean(g))
  {
    RollCleaned(d);
    GreenTeaCleaned(g);
    var s, t := Clean(d), Clean(g);
    forall i | 0 <= i <= |s| - |t|
      ensures !OccursAt(s, t, i)
    {
      if i != 8 {
        assert s[i..i + |t|][0] == s[i];
      } else {
        assert s[i..i + |t|][5] == s[i + 5];
      }
    }
  }

  /** No Pursoft description other than Green Tea shares every letter and
      digit with "pursoft greentea roll", and Green Tea is not a substring. */
  lemma RollDescriptionGap(d: string, rule: string)
    requires d == "Pursoft GreenTea Roll"
    requires rule in {"100% Virgin Pulp Unscented", "Lavender Vanilla", "Bathroom Toilet R - Unscented",
                      "Green Tea", "Citrus Verbena", "Charcoal Floral"}
    ensures !Contains(Clean(d), Clean(rule))
  {
    if rule == "Green Tea" {
      GreenTeaNotInRoll(d, rule);
    } else if rule == "Bathroom Toilet R - Unscented" {
      RollLacksB(d, rule);
    } else if rule == "Citrus Verbena" || rule == "Charcoal Floral" {
      RollLacksC(d, rule);
    } else {
      RollLacksDigitOrV(d, rule);
    }
  }

  lemma RollLacksDigitOrV(d: string, rule: string)
    requires d == "Pursoft GreenTea Roll"
    requires rule == "100% Virgin Pulp Unscented" || rule == "Lavender Vanilla"
    ensures !Contains(Clean(d), Clean(rule))
  {
    if rule == "100% Virgin Pulp Unscented" {
      RollLacks(d, rule, '1', 0);
    } else {
      RollLacks(d, rule, 'v', 2);
    }
  }

  lemma RollLacksB(d: string, rule: string)
    requires d == "Pursoft GreenTea Roll"
    requires rule == "Bathroom Toilet R - Unscented"
    ensures !Contains(Clean(d), Clean(rule))
  {
    RollLacks(d, rule, 'b', 0);
  }

  lemma RollLacksC(d: string, rule: string)
    requires d == "Pursoft GreenTea Roll"
    requires rule == "Citrus Verbena" || rule == "Charcoal Floral"
    ensures !Contains(Clean(d), Clean(rule))
  {
    RollLacks(d, rule, 'c', 0);
  }

  lemma RollLacks(d: string, rule: string, c: char, k: nat)
    requires d == "Pursoft GreenTea Roll"
    requires 0 <= k < |rule| && !IsSpace(rule[0]) && !IsSpace(rule[|rule| - 1])
    requires IsWordChar(c) && LowerChar(rule[k]) == c && c !in "pursoft greentea roll"
    ensures !Contains(Clean(d), Clean(rule))
  {
    RollLowered(d);
    DescriptionLacks(rule, d, c, k);
  }

  /** One Pursoft row against the description-only listing. */
  lemma RollSkipsRow(r: ProductRecord, j: nat)
    requires r.brand == "Pursoft" && r.description == "Pursoft GreenTea Roll" && r.size == None
    requires 27 <= j < 39
    ensures !Matches(NormalizationMap[j], r)
  {
    PursoftDescriptions(j);
    RollDescriptionGap(r.description, NormalizationMap[j].description);
    EmptySizeMatchesByDescription(NormalizationMap[j], r);
  }

  lemma PursoftDescriptions(j: nat)
    requires 27 <= j < 39
    ensures NormalizationMap[j].description in
              {"100% Virgin Pulp Unscented", "Lavender Vanilla", "Bathroom Toilet R - Unscented",
               "Green Tea", "Citrus Verbena", "Charcoal Floral"}
  {
  }

  /** Both keywords of the first keyword rule occur in the lower-cased listing. */
  lemma RollHasKeywords(r: ProductRecord)
    requires r.brand == "Pursoft" && r.description == "Pursoft GreenTea Roll"
    ensures KeywordMatches(KeywordRules[0], r)
  {
    RollLowered(r.description);
    StripNoOuterSpace(r.brand);
    var d := Lower(r.description);
    assert d[8..13] == "green" && d[13..16] == "tea";
    assert OccursAt(d, "green", 8) && OccursAt(d, "tea", 13);
  }

  /** With no size and a description no row's cleaned description fits, a
      Pursoft listing mentioning "green" and "tea" falls through to the
      keyword tier and becomes Green Tea, 24 x 180. */
  lemma KeywordFallback(r: ProductRecord)
    requires r.brand == "Pursoft" && r.description == "Pursoft GreenTea Roll" && r.size == None
    ensures NormalizeRecord(r) == Some(r.(description := "Green Tea", size := Some("24 x 180")))
  {
    PursoftSkipsRowsBefore27(r);
    PursoftHeads();
    OtherBrandRows(r, 39, |NormalizationMap|);
    forall j | 27 <= j < 39
      ensures !Matches(NormalizationMap[j], r)
    {
      RollSkipsRow(r, j);
    }
    RollHasKeywords(r);
    FirstKeywordRuleWins(r, 0);
  }

  /** Normalisation is not idempotent: the canonical Pursoft pair Green Tea,
      24 x 180 (row 30, and the keyword tier's output) is rewritten to row 27,
      because the skeleton of row 27's size "24 x 1" occurs in "24 x 180". */
  lemma SkeletonRewritesCanonicalPair(r: ProductRecord)
    requires r.brand == "Pursoft" && r.description == "Green Tea" && r.size == Some("24 x 180")
    ensures NormalizeRecord(r) == Some(r.(description := "100% Virgin Pulp Unscented", size := Some("24 x 1")))
    ensures NormalizeRecord(r) != Some(r)
  {
    PursoftSkipsRowsBefore27(r);
    SkeletonMatchesRow27(r);
    FirstTableRuleWins(r, 27);
  }

  lemma PursoftSkipsRowsBefore27(r: ProductRecord)
    requires r.brand == "Pursoft"
    ensures forall j | 0 <= j < 27 :: !Matches(NormalizationMap[j], r)
  {
    PursoftHeads();
    OtherBrandRows(r, 0, 27);
  }

  /** Row 27 accepts any Pursoft listing whose size skeleton contains "24 x 1". */
  lemma SkeletonMatchesRow27(r: ProductRecord)
    requires r.brand == "Pursoft" && r.size == Some("24 x 180")
    ensures NormalizationMap[27] == Rule("Pursoft", "100% Virgin Pulp Unscented", "24 x 1")
    ensures Matches(NormalizationMap[27], r)
  {
    assert NormalizationMap[27] == Rule("Pursoft", "100% Virgin Pulp Unscented", "24 x 1");
    SkeletonContains(r.size.value, "24 x 1");
    StripNoOuterSpace(r.brand);
  }

  /** The skeleton of "24 x 1" occurs in that of "24 x 180". */
  lemma SkeletonContains(size: string, ruleSize: string)
    requires size == "24 x 180" && ruleSize == "24 x 1"
    ensures Skeleton(Key(size)) != [] && Contains(Skeleton(Key(size)), Skeleton(Lower(ruleSize)))
  {
    CanonicalSize(size);
    CanonicalSize(ruleSize);
    assert size[0..6] == ruleSize;
    assert OccursAt(size, ruleSize, 0);
  }

  /** Hence the keyword tier's output does not survive a second pass. */
  lemma KeywordOutputNotStable(r: ProductRecord)
    requires r.brand == "Pursoft" && r.description == "Pursoft GreenTea Roll" && r.size == None
    ensures NormalizeRecord(r).Some?
    ensures NormalizeRecord(NormalizeRecord(r).value) != NormalizeRecord(r)
  {
    KeywordFallback(r);
    var once := NormalizeRecord(r).value;
    SkeletonRewritesCanonicalPair(once);
  }
}
