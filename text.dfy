/** Character classes and string helpers shared by every module.
    Python's `\w`, `\d`, `\s`, `str.lower()` and `str.strip()` are modelled on
    ASCII: letters, digits and `_` are word characters, and the whitespace set
    is the ASCII part of `str.isspace()` (tab to carriage return, the four
    separators 0x1C to 0x1F, and the space). */
module Text {

  datatype Option<T> = None | Some(value: T)

  /** A computation that either yields a value or raises the named exception. */
  datatype Result<T> = Ok(value: T) | Err(error: string)

  /** `x or default` for an optional string: None and "" are both falsy. */
  function OrElse(o: Option<string>, default: string): string
  {
    if o.Some? && o.value != [] then o.value else default
  }

  /** `a or b` for optional strings. */
  function Or(a: Option<string>, b: Option<string>): Option<string>
  {
    if a.Some? && a.value != [] then a else b
  }

  /** A Python value that is truthy: present and not the empty string. */
  predicate Truthy(o: Option<string>)
  {
    o.Some? && o.value != []
  }

  predicate IsDigit(c: char) { '0' <= c <= '9' }

  predicate IsAsciiLetter(c: char) { 'a' <= c <= 'z' || 'A' <= c <= 'Z' }

  /** `\w` */
  predicate IsWordChar(c: char) { IsAsciiLetter(c) || IsDigit(c) || c == '_' }

  /** `\s`, and what `str.strip()` removes */
  predicate IsSpace(c: char)
  {
    c == ' ' || 9 <= c as int <= 13 || 28 <= c as int <= 31
  }

  function LowerChar(c: char): char
  {
    if 'A' <= c <= 'Z' then (c as int + 32) as char else c
  }

  /** `str.lower()` */
  function Lower(s: string): (r: string)
    ensures |r| == |s|
    ensures forall i :: 0 <= i < |s| ==> r[i] == LowerChar(s[i])
  {
    seq(|s|, i requires 0 <= i < |s| => LowerChar(s[i]))
  }

  /** Index of the first non-space character at or after `i`. */
  function SkipSpaces(s: string, i: nat): (k: nat)
    requires i <= |s|
    ensures i <= k <= |s|
    ensures forall j :: i <= j < k ==> IsSpace(s[j])
    ensures k < |s| ==> !IsSpace(s[k])
    decreases |s| - i
  {
    if i == |s| || !IsSpace(s[i]) then i else SkipSpaces(s, i + 1)
  }

  /** End of `s[lo..j]` once trailing spaces are dropped. */
  function TrimEnd(s: string, lo: nat, j: nat): (k: nat)
    requires lo <= j <= |s|
    ensures lo <= k <= j
    ensures forall m :: k <= m < j ==> IsSpace(s[m])
    ensures k > lo ==> !IsSpace(s[k - 1])
    decreases j
  {
    if j == lo || !IsSpace(s[j - 1]) then j else TrimEnd(s, lo, j - 1)
  }

  /** `str.strip()` */
  function Strip(s: string): string
  {
    var a := SkipSpaces(s, 0);
    s[a..TrimEnd(s, a, |s|)]
  }

  /** What `str.strip()` returns: a slice of `s` that neither starts nor ends
      with whitespace, and everything cut off on either side is whitespace. */
  lemma StripShape(s: string)
    ensures exists a, b :: 0 <= a <= b <= |s| && Strip(s) == s[a..b]
                          && (forall j :: 0 <= j < a ==> IsSpace(s[j]))
                          && (forall j :: b <= j < |s| ==> IsSpace(s[j]))
    ensures Strip(s) == [] || (!IsSpace(Strip(s)[0]) && !IsSpace(Strip(s)[|Strip(s)| - 1]))
  {
    var a := SkipSpaces(s, 0);
    var b := TrimEnd(s, a, |s|);
    assert b > a ==> !IsSpace(s[a]);
    assert Strip(s) == s[a..b];
  }

  /** One leading space is all `str.strip()` removes from such a string. */
  lemma StripOneLeading(s: string)
    requires |s| >= 2 && IsSpace(s[0]) && !IsSpace(s[1]) && !IsSpace(s[|s| - 1])
    ensures Strip(s) == s[1..]
  {
    assert SkipSpaces(s, 1) == 1;
    assert SkipSpaces(s, 0) == 1;
  }

  /** A string without upper-case letters is its own lower-case form. */
  lemma LowerOfLower(s: string)
    requires forall k :: 0 <= k < |s| ==> !('A' <= s[k] <= 'Z')
    ensures Lower(s) == s
  {
  }

  lemma StripNoOuterSpace(s: string)
    requires s == [] || (!IsSpace(s[0]) && !IsSpace(s[|s| - 1]))
    ensures Strip(s) == s
  {
    var a := SkipSpaces(s, 0);
    assert a == 0;
  }

  /** `t` occurs in `s` starting at index `i`. */
  predicate OccursAt(s: string, t: string, i: int)
  {
    0 <= i && i + |t| <= |s| && s[i..i + |t|] == t
  }

  /** Python's `t in s` on strings. */
  predicate Contains(s: string, t: string)
  {
    exists i | 0 <= i <= |s| - |t| :: OccursAt(s, t, i)
  }

  predicate StartsWith(s: string, p: string)
  {
    |p| <= |s| && s[..|p|] == p
  }

  predicate EndsWith(s: string, p: string)
  {
    |p| <= |s| && s[|s| - |p|..] == p
  }

  /** `c * n` */
  function Repeat(c: char, n: nat): (r: string)
    ensures |r| == n && forall k :: 0 <= k < n ==> r[k] == c
  {
    seq(n, k => c)
  }

  /** `s.zfill(w)` for a string without a sign: zeros added on the left up
      to width `w`. */
  function ZFill(s: string, w: nat): (r: string)
    ensures |r| == if |s| < w then w else |s|
    ensures EndsWith(r, s)
    ensures forall k :: 0 <= k < |r| - |s| ==> r[k] == '0'
  {
    var r := Repeat('0', if |s| < w then w - |s| else 0) + s;
    assert r[|r| - |s|..] == s;
    r
  }

  /** `s.ljust(w, c)`: the fill character added on the right up to width `w`. */
  function LJust(s: string, w: nat, c: char): (r: string)
    ensures |r| == if |s| < w then w else |s|
    ensures StartsWith(r, s)
    ensures forall k :: |s| <= k < |r| ==> r[k] == c
  {
    var r := s + Repeat(c, if |s| < w then w - |s| else 0);
    assert r[..|s|] == s;
    r
  }

  lemma ContainsWitness(s: string, t: string, i: int)
    requires OccursAt(s, t, i)
    ensures Contains(s, t)
  {
  }

  /** A character of `t` that `s` lacks rules out `t in s`. */
  lemma NotContainsMissingChar(s: string, t: string, k: int)
    requires 0 <= k < |t| && t[k] !in s
    ensures !Contains(s, t)
  {
    forall i | 0 <= i <= |s| - |t|
      ensures !OccursAt(s, t, i)
    {
      assert s[i..i + |t|][k] == s[i + k];
    }
  }

  /** The same, naming the character rather than its position. */
  lemma NotContainsChar(s: string, t: string, c: char)
    requires c in t && c !in s
    ensures !Contains(s, t)
  {
    var k :| 0 <= k < |t| && t[k] == c;
    NotContainsMissingChar(s, t, k);
  }

  /** Equal lengths leave one candidate position. */
  lemma NotContainsSameLength(s: string, t: string)
    requires |s| == |t| && s != t
    ensures !Contains(s, t)
  {
    assert s[0..|s|] == s;
  }

  /** A substring stays a substring of any extension on either side. */
  lemma ContainsInMiddle(a: string, t: string, b: string)
    ensures Contains(a + t + b, t)
  {
    assert (a + t + b)[|a|..|a| + |t|] == t;
    assert OccursAt(a + t + b, t, |a|);
  }

  /** `re.sub(r"[^\w]+", " ", s)` scanned from index `i`; `inRun` says the
      character before `i` was a non-word character already replaced. */
  function CollapseFrom(s: string, i: nat, inRun: bool): string
    requires i <= |s|
    decreases |s| - i
  {
    if i == |s| then []
    else if IsWordChar(s[i]) then [s[i]] + CollapseFrom(s, i + 1, false)
    else if inRun then CollapseFrom(s, i + 1, true)
    else [' '] + CollapseFrom(s, i + 1, true)
  }

  /** The collapsed text holds only word characters and single spaces, never
      starts with a space inside a run, and is no longer than its input. */
  lemma {:induction false} CollapseShape(s: string, i: nat, inRun: bool)
    requires i <= |s|
    ensures var r := CollapseFrom(s, i, inRun);
            && (forall k :: 0 <= k < |r| ==> IsWordChar(r[k]) || r[k] == ' ')
            && (forall k :: 0 <= k < |r| - 1 ==> !(r[k] == ' ' && r[k + 1] == ' '))
            && (inRun && r != [] ==> r[0] != ' ')
            && |r| <= |s| - i
    decreases |s| - i
  {
    if i < |s| {
      if IsWordChar(s[i]) {
        CollapseShape(s, i + 1, false);
      } else {
        CollapseShape(s, i + 1, true);
      }
    }
  }

  /** Every maximal run of non-word characters becomes one space. */
  function CollapseNonWord(s: string): (r: string)
  {
    CollapseFrom(s, 0, false)
  }

  /** The word characters of `s`, in order. */
  function WordChars(s: string): (r: string)
    ensures forall k :: 0 <= k < |r| ==> IsWordChar(r[k])
  {
    if s == [] then []
    else (if IsWordChar(s[0]) then [s[0]] else []) + WordChars(s[1..])
  }

  /** Collapsing keeps exactly the word characters, in order. */
  lemma {:induction false} CollapseKeepsWordChars(s: string, i: nat, inRun: bool)
    requires i <= |s|
    ensures WordChars(CollapseFrom(s, i, inRun)) == WordChars(s[i..])
    decreases |s| - i
  {
    if i < |s| {
      assert s[i..] == [s[i]] + s[i + 1..];
      WordCharsAppend([s[i]], s[i + 1..]);
      if IsWordChar(s[i]) {
        CollapseKeepsWordChars(s, i + 1, false);
        WordCharsAppend([s[i]], CollapseFrom(s, i + 1, false));
      } else {
        CollapseKeepsWordChars(s, i + 1, true);
        if !inRun {
          WordCharsAppend([' '], CollapseFrom(s, i + 1, true));
        }
      }
    }
  }

  lemma {:induction false} WordCharsAppend(a: string, b: string)
    ensures WordChars(a + b) == WordChars(a) + WordChars(b)
  {
    if a == [] {
      assert a + b == b;
    } else {
      assert (a + b)[1..] == a[1..] + b;
      WordCharsAppend(a[1..], b);
    }
  }

  /** A word character occurs in `s` exactly when it occurs among its word characters. */
  lemma {:induction false} WordCharIn(s: string, c: char)
    requires IsWordChar(c)
    ensures c in WordChars(s) <==> c in s
  {
    if s != [] {
      WordCharIn(s[1..], c);
      assert s == [s[0]] + s[1..];
    }
  }

  /** A string with no word character has none to keep. */
  lemma {:induction false} WordCharsNone(s: string)
    requires forall k :: 0 <= k < |s| ==> !IsWordChar(s[k])
    ensures WordChars(s) == []
  {
    if s != [] {
      WordCharsNone(s[1..]);
    }
  }

  /** Lower-casing commutes with keeping the word characters. */
  lemma {:induction false} WordCharsLower(s: string)
    ensures WordChars(Lower(s)) == Lower(WordChars(s))
  {
    if s != [] {
      WordCharsLower(s[1..]);
      assert Lower(s)[1..] == Lower(s[1..]);
      assert IsWordChar(Lower(s)[0]) <==> IsWordChar(s[0]);
      assert Lower([s[0]] + WordChars(s[1..])) == [LowerChar(s[0])] + Lower(WordChars(s[1..]));
    }
  }

  /** Stripping removes only whitespace, so it keeps every word character. */
  lemma StripKeepsWordChars(s: string)
    ensures WordChars(Strip(s)) == WordChars(s)
  {
    var a := SkipSpaces(s, 0);
    var b := TrimEnd(s, a, |s|);
    var head, mid, tail := s[..a], s[a..b], s[b..];
    assert s == head + mid + tail;
    WordCharsAround(head, mid, tail);
  }

  /** Whitespace on either side adds no word character. */
  lemma WordCharsAround(head: string, mid: string, tail: string)
    requires forall k :: 0 <= k < |head| ==> IsSpace(head[k])
    requires forall k :: 0 <= k < |tail| ==> IsSpace(tail[k])
    ensures WordChars(head + mid + tail) == WordChars(mid)
  {
    WordCharsNone(head);
    WordCharsNone(tail);
    WordCharsAppend(head + mid, tail);
    WordCharsAppend(head, mid);
  }

  /** A string with no non-word character is left as it is. */
  lemma {:induction false} CollapseAllWord(s: string, i: nat, inRun: bool)
    requires i <= |s|
    requires forall k :: i <= k < |s| ==> IsWordChar(s[k])
    ensures CollapseFrom(s, i, inRun) == s[i..]
    decreases |s| - i
  {
    if i < |s| {
      CollapseAllWord(s, i + 1, false);
    }
  }

  /** A non-empty run of word characters is copied as it is. */
  lemma {:induction false} CollapseWordRun(s: string, i: nat, j: nat, inRun: bool)
    requires i < j <= |s|
    requires forall k :: i <= k < j ==> IsWordChar(s[k])
    ensures CollapseFrom(s, i, inRun) == s[i..j] + CollapseFrom(s, j, false)
    decreases j - i
  {
    assert CollapseFrom(s, i, inRun) == [s[i]] + CollapseFrom(s, i + 1, false);
    if i + 1 < j {
      CollapseWordRun(s, i + 1, j, false);
      assert s[i..j] == [s[i]] + s[i + 1..j];
    } else {
      assert s[i..j] == [s[i]];
    }
  }

  /** A non-empty run of other characters becomes a single space, or nothing
      when it continues a run already replaced. */
  lemma {:induction false} CollapseGapRun(s: string, i: nat, j: nat, inRun: bool)
    requires i < j <= |s|
    requires forall k :: i <= k < j ==> !IsWordChar(s[k])
    ensures CollapseFrom(s, i, inRun) == (if inRun then [] else [' ']) + CollapseFrom(s, j, true)
    decreases j - i
  {
    if i + 1 < j {
      CollapseGapRun(s, i + 1, j, true);
    }
  }

  /** Collapsing does not trim: when the text ends in a non-word character
      (and, inside a run, some word character is still to come), the result
      ends in a space. */
  lemma {:induction false} CollapseEndsInSpace(s: string, i: nat, inRun: bool)
    requires i < |s| && !IsWordChar(s[|s| - 1])
    requires inRun ==> exists k :: i <= k < |s| && IsWordChar(s[k])
    ensures CollapseFrom(s, i, inRun) != []
    ensures CollapseFrom(s, i, inRun)[|CollapseFrom(s, i, inRun)| - 1] == ' '
    decreases |s| - i
  {
    if IsWordChar(s[i]) {
      CollapseEndsInSpace(s, i + 1, false);
    } else if inRun {
      CollapseEndsInSpace(s, i + 1, true);
    } else if i + 1 < |s| {
      if exists k :: i + 1 <= k < |s| && IsWordChar(s[k]) {
        CollapseEndsInSpace(s, i + 1, true);
      } else {
        CollapseGapRun(s, i + 1, |s|, true);
      }
    }
  }

  /** Text that already consists of word characters separated by single
      spaces is left as it is. */
  lemma {:induction false} CollapseSingleSpaced(s: string, i: nat, inRun: bool)
    requires i <= |s|
    requires forall k :: i <= k < |s| ==> IsWordChar(s[k]) || s[k] == ' '
    requires forall k :: i <= k < |s| - 1 ==> s[k] != ' ' || s[k + 1] != ' '
    requires inRun ==> i == |s| || s[i] != ' '
    ensures CollapseFrom(s, i, inRun) == s[i..]
    decreases |s| - i
  {
    if i < |s| {
      var c := s[i];
      assert s[i..] == [c] + s[i + 1..];
      if IsWordChar(c) {
        CollapseSingleSpaced(s, i + 1, false);
      } else {
        assert c == ' ' && !inRun;
        assert i + 1 == |s| || s[i + 1] != ' ';
        CollapseSingleSpaced(s, i + 1, true);
      }
    }
  }

  /** `sep.join(parts)` */
  function Join(parts: seq<string>, sep: string): (r: string)
    ensures parts == [] ==> r == []
  {
    if parts == [] then []
    else if |parts| == 1 then parts[0]
    else parts[0] + sep + Join(parts[1..], sep)
  }

  /** The positions of the elements of `xs` that satisfy `p`, in order. */
  function Positions<T>(xs: seq<T>, p: T -> bool): (idx: seq<int>)
    ensures forall m :: 0 <= m < |idx| ==> 0 <= idx[m] < |xs|
  {
    if xs == [] then []
    else
      var n := |xs| - 1;
      Positions(xs[..n], p) + (if p(xs[n]) then [n] else [])
  }

  /** `ys` lists `f` of the elements of `xs` that satisfy `p`, in order:
      `idx` gives their positions, increasing, and every such position. */
  ghost predicate PicksOut<T, U>(ys: seq<U>, xs: seq<T>, idx: seq<int>, p: T -> bool, f: T -> U)
  {
    && |idx| == |ys|
    && (forall m :: 0 <= m < |idx| ==> 0 <= idx[m] < |xs| && p(xs[idx[m]]) && ys[m] == f(xs[idx[m]]))
    && (forall m, m' :: 0 <= m < m' < |idx| ==> idx[m] < idx[m'])
    && (forall i :: 0 <= i < |xs| ==> (i in idx <==> p(xs[i])))
  }

  /** One more element keeps the picking-out relation. */
  lemma PicksOutGrow<T, U>(ys: seq<U>, xs: seq<T>, idx: seq<int>, p: T -> bool, f: T -> U)
    requires xs != [] && PicksOut(ys, xs[..|xs| - 1], idx, p, f)
    ensures var n := |xs| - 1;
            var add := p(xs[n]);
            PicksOut(ys + (if add then [f(xs[n])] else []), xs, idx + (if add then [n] else []), p, f)
  {
    var n := |xs| - 1;
    assert forall i :: 0 <= i < n ==> xs[..n][i] == xs[i];
    assert n !in idx;
  }
}
