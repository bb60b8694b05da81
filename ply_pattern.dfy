/** The `(\d+)\s*ply` pattern, searched case-insensitively, that the Cold
    Storage (coldstorage.py:24) and FairPrice (fairprice.py:21) scrapers
    use to read the ply count out of a product name, and the RedMart
    variant `(\d+)\s*-\s*ply|(\d+)\s*ply` (redmart.py:22). */
module PlyPattern {
  import opened Text

  /** End of the maximal run of characters satisfying `digits ? IsDigit : IsSpace`
      that starts at `i`. */
  function RunEnd(s: string, i: nat, digits: bool): (j: nat)
    requires i <= |s|
    ensures i <= j <= |s|
    ensures forall k :: i <= k < j ==> (if digits then IsDigit(s[k]) else IsSpace(s[k]))
    ensures j < |s| ==> !(if digits then IsDigit(s[j]) else IsSpace(s[j]))
    decreases |s| - i
  {
    if i < |s| && (if digits then IsDigit(s[i]) else IsSpace(s[i])) then RunEnd(s, i + 1, digits) else i
  }

  /** "ply" in any letter case at index `k`. */
  predicate PlyWordAt(s: string, k: nat)
  {
    k + 3 <= |s| && LowerChar(s[k]) == 'p' && LowerChar(s[k + 1]) == 'l' && LowerChar(s[k + 2]) == 'y'
  }

  /** The pattern matches starting at `i`. Backtracking cannot help: giving
      up a digit leaves a digit where a space or `p` is needed, and giving up
      a space leaves a space where `p` is needed, so the greedy runs decide. */
  predicate MatchAt(s: string, i: nat)
  {
    i < |s| && IsDigit(s[i]) && PlyWordAt(s, RunEnd(s, RunEnd(s, i, true), false))
  }

  /** Leftmost match position at or after `i`, as `re.search` finds it. */
  function SearchFrom(s: string, i: nat): (r: Option<nat>)
    requires i <= |s|
    ensures r.Some? ==> i <= r.value < |s| && MatchAt(s, r.value)
    ensures r.Some? ==> forall k :: i <= k < r.value ==> !MatchAt(s, k)
    ensures r.None? ==> forall k :: i <= k < |s| ==> !MatchAt(s, k)
    decreases |s| - i
  {
    if i == |s| then None
    else if MatchAt(s, i) then Some(i)
    else SearchFrom(s, i + 1)
  }

  /** `PLY_PATTERN.search(text)` followed by `match.group(1)`, or None. */
  function ExtractPly(s: string): Option<string>
  {
    match SearchFrom(s, 0)
    case Some(i) => Some(s[i..RunEnd(s, i, true)])
    case None => None
  }

  /** A ply count is found exactly when the pattern occurs somewhere; it is
      then the non-empty digit run of the leftmost occurrence, which is
      followed (after optional whitespace) by "ply". */
  lemma ExtractPlyExactly(s: string)
    ensures ExtractPly(s).Some? <==> exists i :: 0 <= i < |s| && MatchAt(s, i)
    ensures ExtractPly(s).Some? ==>
              exists i :: 0 <= i < |s| && MatchAt(s, i) && (forall k :: 0 <= k < i ==> !MatchAt(s, k))
                          && ExtractPly(s).value == s[i..RunEnd(s, i, true)]
    ensures ExtractPly(s).Some? ==>
              ExtractPly(s).value != [] && forall k :: 0 <= k < |ExtractPly(s).value| ==> IsDigit(ExtractPly(s).value[k])
  {
    var f := SearchFrom(s, 0);
    if f.Some? {
      var i := f.value;
      var j := RunEnd(s, i, true);
      assert ExtractPly(s).value == s[i..j];
      assert forall k :: 0 <= k < j - i ==> s[i..j][k] == s[i + k];
    }
  }

  /** Example: the digits before a separated, capitalised "Ply". */
  lemma ExtractPlySpaced(s: string)
    requires s == "3 Ply"
    ensures ExtractPly(s) == Some("3")
  {
    assert RunEnd(s, 1, true) == 1;
    assert RunEnd(s, 2, false) == 2;
    assert RunEnd(s, 1, false) == 2;
    assert RunEnd(s, 0, true) == 1;
    assert MatchAt(s, 0);
    assert s[0..1] == "3";
  }

  /** Example: a digit run not followed by "ply" is passed over for a later one. */
  lemma ExtractPlySkipsCount(s: string)
    requires s == "24 x 4ply"
    ensures ExtractPly(s) == Some("4")
  {
    assert RunEnd(s, 2, true) == 2;
    assert RunEnd(s, 1, true) == 2;
    assert RunEnd(s, 0, true) == 2;
    assert RunEnd(s, 3, false) == 3;
    assert RunEnd(s, 2, false) == 3;
    assert !MatchAt(s, 0);
    assert !MatchAt(s, 1);
    assert RunEnd(s, 6, true) == 6;
    assert RunEnd(s, 5, true) == 6;
    assert RunEnd(s, 6, false) == 6;
    assert MatchAt(s, 5);
    assert SearchFrom(s, 5) == Some(5);
    assert s[5..6] == "4";
  }

  /** The first alternative of the RedMart pattern, `(\d+)\s*-\s*ply`, matches
      at `i`; as above, the greedy runs decide. */
  predicate DashedMatchAt(s: string, i: nat)
  {
    i < |s| && IsDigit(s[i]) &&
    var k := RunEnd(s, RunEnd(s, i, true), false);
    k < |s| && s[k] == '-' && PlyWordAt(s, RunEnd(s, k + 1, false))
  }

  /** Either alternative matches at `i`; both capture the digit run at `i`. */
  predicate EitherMatchAt(s: string, i: nat)
  {
    DashedMatchAt(s, i) || MatchAt(s, i)
  }

  /** Leftmost position at or after `i` where the RedMart pattern matches. */
  function SearchEitherFrom(s: string, i: nat): (r: Option<nat>)
    requires i <= |s|
    ensures r.Some? ==> i <= r.value < |s| && EitherMatchAt(s, r.value)
    ensures r.Some? ==> forall k :: i <= k < r.value ==> !EitherMatchAt(s, k)
    ensures r.None? ==> forall k :: i <= k < |s| ==> !EitherMatchAt(s, k)
    decreases |s| - i
  {
    if i == |s| then None
    else if EitherMatchAt(s, i) then Some(i)
    else SearchEitherFrom(s, i + 1)
  }

  /** RedMart's `_extract_ply`: None for empty text, otherwise the digits of
      the leftmost match, from whichever alternative matched. */
  function ExtractDashedPly(s: string): Option<string>
  {
    if s == [] then None
    else match SearchEitherFrom(s, 0)
      case Some(i) => Some(s[i..RunEnd(s, i, true)])
      case None => None
  }

  /** The RedMart pattern finds a ply count wherever the plain one does, no
      later in the text; the count is the digit run where it matches. */
  lemma DashedFindsNoLater(s: string)
    ensures ExtractPly(s).Some? ==> ExtractDashedPly(s).Some?
    ensures ExtractPly(s).Some? ==> SearchEitherFrom(s, 0).value <= SearchFrom(s, 0).value
    ensures ExtractDashedPly(s).Some? ==>
              exists i :: 0 <= i < |s| && EitherMatchAt(s, i) && ExtractDashedPly(s).value == s[i..RunEnd(s, i, true)]
  {
    var f := SearchFrom(s, 0);
    if f.Some? {
      assert EitherMatchAt(s, f.value);
    }
  }

  /** A hyphenated count is found by the RedMart pattern only. */
  lemma HyphenatedPly(s: string)
    requires s == "3-ply"
    ensures ExtractPly(s) == None
    ensures ExtractDashedPly(s) == Some("3")
  {
    assert RunEnd(s, 1, true) == 1;
    assert RunEnd(s, 0, true) == 1;
    assert RunEnd(s, 1, false) == 1;
    assert RunEnd(s, 2, false) == 2;
    assert !MatchAt(s, 0);
    assert DashedMatchAt(s, 0);
    forall k | 0 < k < |s|
      ensures !MatchAt(s, k)
    {
      assert !IsDigit(s[k]);
    }
    assert s[0..1] == "3";
  }
}
