/** The top-level copy of the normaliser (bumboo-scraper/normalizer.py).
    Its table, keyword rules, `_clean` and `_matches` are the same as those
    of scrapers/normalizer.py (module Normalizer), but its `normalize_record`
    returns the record untouched and its `normalize_records` sends every
    record to `matched`. */
module StubNormalizer {
  import opened Text
  import opened Models
  import N = Normalizer

  /** `normalize_record`: the identity. */
  function NormalizeRecord(record: ProductRecord): ProductRecord
  {
    record
  }

  /** `normalize_records`: every record is "matched", unchanged and in
      order, and nothing is ever unmatched. */
  method NormalizeRecords(records: seq<ProductRecord>) returns (matched: seq<ProductRecord>, unmatched: seq<ProductRecord>)
    ensures matched == records
    ensures unmatched == []
  {
    matched := [];
    var i := 0;
    while i < |records|
      invariant 0 <= i <= |records|
      invariant matched == records[..i]
    {
      matched := matched + [NormalizeRecord(records[i])];
      i := i + 1;
    }
    unmatched := [];
  }

  /** `matched` never has more entries than the input. */
  lemma {:induction false} MatchedNoLonger(records: seq<ProductRecord>)
    ensures |N.MatchedOf(records)| <= |records|
  {
    N.PartitionCount(records);
  }

  /** The copy agrees with the real normaliser on a batch exactly when every
      record of the batch is already in canonical form, that is, when the
      real `normalize_record` maps each record to itself. */
  lemma AgreesWithNormalizerExactly(records: seq<ProductRecord>)
    ensures (N.MatchedOf(records) == records && N.UnmatchedOf(records) == [])
            <==> forall x :: x in records ==> N.NormalizeRecord(x) == Some(x)
  {
    if N.MatchedOf(records) == records && N.UnmatchedOf(records) == [] {
      AgreementMeansCanonical(records);
    }
    if forall x :: x in records ==> N.NormalizeRecord(x) == Some(x) {
      CanonicalMeansAgreement(records);
    }
  }

  lemma {:induction false} CanonicalMeansAgreement(records: seq<ProductRecord>)
    requires forall x :: x in records ==> N.NormalizeRecord(x) == Some(x)
    ensures N.MatchedOf(records) == records && N.UnmatchedOf(records) == []
  {
    if records != [] {
      var init := records[..|records| - 1];
      var last := records[|records| - 1];
      assert records == init + [last];
      assert N.NormalizeRecord(last) == Some(last);
      CanonicalMeansAgreement(init);
      assert N.MatchedOf(records) == N.MatchedOf(init) + [last];
      assert N.UnmatchedOf(records) == N.UnmatchedOf(init);
    }
  }

  lemma {:induction false} AgreementMeansCanonical(records: seq<ProductRecord>)
    requires N.MatchedOf(records) == records
    ensures forall x :: x in records ==> N.NormalizeRecord(x) == Some(x)
  {
    if records != [] {
      var init := records[..|records| - 1];
      var last := records[|records| - 1];
      MatchedNoLonger(init);
      var tail := match N.NormalizeRecord(last) case Some(n) => [n] case None => [];
      assert N.MatchedOf(records) == N.MatchedOf(init) + tail;
      assert |tail| == 1;
      assert N.MatchedOf(init) == records[..|records| - 1];
      AgreementMeansCanonical(init);
      assert records == init + [last];
    }
  }
}
