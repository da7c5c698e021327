/**
 * The three JavaScript string operations the classifier relies on:
 * `toLowerCase` (ASCII letters only), `trim` and `includes`.
 */
module JsString {

  /** An ASCII capital letter, the only characters this model folds. */
  predicate IsAsciiUpper(c: char) {
    'A' <= c <= 'Z'
  }

  /** Folds one character: an ASCII capital becomes its small letter, anything else is kept. */
  function LowerChar(c: char): char {
    if IsAsciiUpper(c) then (c as int - 'A' as int + 'a' as int) as char else c
  }

  /** `s.toLowerCase()`, restricted to ASCII case folding. */
  function Lower(s: string): (r: string)
    ensures |r| == |s|
    ensures forall i :: 0 <= i < |s| ==> r[i] == LowerChar(s[i])
    ensures forall i :: 0 <= i < |r| ==> !IsAsciiUpper(r[i])
  {
    if s == [] then [] else [LowerChar(s[0])] + Lower(s[1..])
  }

  /** Lower-casing a string that is already lower-case changes nothing. */
  lemma LowerIdempotent(s: string)
    ensures Lower(Lower(s)) == Lower(s)
  {
    var l := Lower(s);
    assert forall i :: 0 <= i < |l| ==> LowerChar(l[i]) == l[i];
  }

  /** Lower-casing distributes over concatenation. */
  lemma LowerAppend(s: string, t: string)
    ensures Lower(s + t) == Lower(s) + Lower(t)
  {
    assert forall i :: 0 <= i < |s + t| ==> Lower(s + t)[i] == (Lower(s) + Lower(t))[i];
  }

  /**
   * The characters `String.prototype.trim` strips: the ECMAScript WhiteSpace
   * code points (tab, vertical tab, form feed, space, no-break space, byte
   * order mark and the Unicode space separators) and the LineTerminator code
   * points (line feed, carriage return, line and paragraph separator).
   */
  predicate IsWhitespace(c: char) {
    c == '\t' || c == '\n' || c == '\U{000B}' || c == '\U{000C}' || c == '\r' || c == ' '
    || c == '\U{00A0}' || c == '\U{1680}' || ('\U{2000}' <= c <= '\U{200A}')
    || c == '\U{2028}' || c == '\U{2029}' || c == '\U{202F}' || c == '\U{205F}'
    || c == '\U{3000}' || c == '\U{FEFF}'
  }

  predicate AllWhitespace(s: string) {
    forall i :: 0 <= i < |s| ==> IsWhitespace(s[i])
  }

  /** A string without ASCII capitals is already lower-case. */
  lemma LowerKeepsNonCapitals(s: string)
    requires forall i :: 0 <= i < |s| ==> !IsAsciiUpper(s[i])
    ensures Lower(s) == s
  {
  }

  /** `s` is `m` with the whitespace-only padding `s[..p]` before it and `s[p + |m|..]` after it. */
  predicate PaddedAt(s: string, m: string, p: int) {
    0 <= p && p + |m| <= |s| && s[p..p + |m|] == m
    && AllWhitespace(s[..p]) && AllWhitespace(s[p + |m|..])
  }

  /** Strips leading whitespace. */
  function TrimStart(s: string): (r: string)
    ensures |r| <= |s| && r == s[|s| - |r|..]
    ensures AllWhitespace(s[..|s| - |r|])
    ensures r == [] || !IsWhitespace(r[0])
    ensures forall c :: c in r ==> c in s
  {
    if s != [] && IsWhitespace(s[0]) then TrimStart(s[1..]) else s
  }

  /** Strips trailing whitespace. */
  function TrimEnd(s: string): (r: string)
    ensures |r| <= |s| && r == s[..|r|]
    ensures AllWhitespace(s[|r|..])
    ensures r == [] || !IsWhitespace(r[|r| - 1])
    ensures forall c :: c in r ==> c in s
  {
    if s != [] && IsWhitespace(s[|s| - 1]) then TrimEnd(s[..|s| - 1]) else s
  }

  /**
   * `s.trim()`: the result is a slice of `s` whose padding on both sides is
   * whitespace only, and which neither begins nor ends with whitespace, so
   * no more could be stripped.
   */
  function Trim(s: string): (r: string)
    ensures exists p :: PaddedAt(s, r, p)
    ensures r == [] || (!IsWhitespace(r[0]) && !IsWhitespace(r[|r| - 1]))
    ensures forall c :: c in r ==> c in s
  {
    TrimPadded(s);
    TrimEnd(TrimStart(s))
  }

  /** The whitespace stripped by `TrimStart` and then by `TrimEnd` pads the result. */
  lemma TrimPadded(s: string)
    ensures PaddedAt(s, TrimEnd(TrimStart(s)), |s| - |TrimStart(s)|)
  {
    var a := TrimStart(s);
    var r := TrimEnd(a);
    assert |a| <= |s| && a == s[|s| - |a|..] && AllWhitespace(s[..|s| - |a|]);
    assert |r| <= |a| && r == a[..|r|] && AllWhitespace(a[|r|..]);
    PaddingComposes(s, a, r);
  }

  /** Stripping a whitespace prefix and then a whitespace suffix leaves a padded slice. */
  lemma PaddingComposes(s: string, a: string, r: string)
    requires |a| <= |s| && a == s[|s| - |a|..] && AllWhitespace(s[..|s| - |a|])
    requires |r| <= |a| && r == a[..|r|] && AllWhitespace(a[|r|..])
    ensures PaddedAt(s, r, |s| - |a|)
  {
    var p := |s| - |a|;
    assert s[p..p + |r|] == r by {
      assert forall k :: 0 <= k < |r| ==> s[p..p + |r|][k] == a[k];
    }
    assert s[p + |r|..] == a[|r|..] by {
      assert forall k :: 0 <= k < |a| - |r| ==> s[p + |r|..][k] == a[|r|..][k];
    }
  }

  /** `t` occurs in `s` starting at index `i`. */
  predicate OccursAt(s: string, t: string, i: int) {
    0 <= i && i + |t| <= |s| && s[i..i + |t|] == t
  }

  /**
   * `s.includes(t)`: scans the start positions of `s` from left to right,
   * and succeeds exactly when `t` occurs at some index of `s`.
   */
  function Includes(s: string, t: string): (b: bool)
    ensures b <==> exists i :: OccursAt(s, t, i)
    decreases |s|
  {
    if t <= s then
      assert OccursAt(s, t, 0);
      true
    else if s == [] then
      false
    else
      OccursShift(s, t);
      Includes(s[1..], t)
  }

  /** When `t` is not a prefix of `s`, its occurrences are those in `s[1..]`, shifted by one. */
  lemma OccursShift(s: string, t: string)
    requires s != [] && !(t <= s)
    ensures (exists i :: OccursAt(s, t, i)) <==> (exists i :: OccursAt(s[1..], t, i))
  {
    if exists i :: OccursAt(s, t, i) {
      var i :| OccursAt(s, t, i);
      if i != 0 {
        SliceOfSlice(s, 1, |s|, i - 1, i - 1 + |t|);
        assert OccursAt(s[1..], t, i - 1);
      }
    }
    if exists i :: OccursAt(s[1..], t, i) {
      var i :| OccursAt(s[1..], t, i);
      SliceOfSlice(s, 1, |s|, i, i + |t|);
      assert OccursAt(s, t, i + 1);
    }
  }

  /** A slice of a slice is a slice of the original string. */
  lemma SliceOfSlice(s: string, a: int, b: int, c: int, d: int)
    requires 0 <= a <= b <= |s| && 0 <= c <= d <= b - a
    ensures s[a..b][c..d] == s[a + c..a + d]
  {
    assert forall k :: 0 <= k < d - c ==> s[a..b][c..d][k] == s[a + c..a + d][k];
  }

  /** Containment is transitive: a string holding `t` holds everything `t` holds. */
  lemma IncludesTransitive(s: string, t: string, u: string)
    requires Includes(s, t) && Includes(t, u)
    ensures Includes(s, u)
  {
    var i :| OccursAt(s, t, i);
    var j :| OccursAt(t, u, j);
    SliceOfSlice(s, i, i + |t|, j, j + |u|);
    assert OccursAt(s, u, i + j);
  }

  /** A string that holds a non-empty `t` holds the first character of `t`. */
  lemma IncludesFirstChar(s: string, t: string)
    requires |t| > 0 && Includes(s, t)
    ensures t[0] in s
  {
    var i :| OccursAt(s, t, i);
    assert s[i] == t[0];
  }

  /** An occurrence of such a token in the padded string lies inside `m`. */
  lemma OccurrenceInsidePadding(s: string, m: string, p: int, t: string, i: int)
    requires PaddedAt(s, m, p) && OccursAt(s, t, i)
    requires |t| > 0 && !IsWhitespace(t[0]) && !IsWhitespace(t[|t| - 1])
    ensures OccursAt(m, t, i - p)
  {
    assert s[i] == t[0];
    assert s[i + |t| - 1] == t[|t| - 1];
    SliceOfSlice(s, p, p + |m|, i - p, i - p + |t|);
  }

  /**
   * Whitespace padding around `m` is invisible to a search for a token that
   * neither begins nor ends with whitespace.
   */
  lemma IncludesIgnoresPadding(s: string, m: string, p: int, t: string)
    requires PaddedAt(s, m, p)
    requires |t| > 0 && !IsWhitespace(t[0]) && !IsWhitespace(t[|t| - 1])
    ensures Includes(s, t) <==> Includes(m, t)
  {
    if Includes(s, t) {
      var i :| OccursAt(s, t, i);
      OccurrenceInsidePadding(s, m, p, t, i);
    }
    if Includes(m, t) {
      var i :| OccursAt(m, t, i);
      SliceOfSlice(s, p, p + |m|, i, i + |t|);
      assert OccursAt(s, t, p + i);
    }
  }

  /** Trimming never changes whether a token without outer whitespace occurs. */
  lemma IncludesTrim(s: string, t: string)
    requires |t| > 0 && !IsWhitespace(t[0]) && !IsWhitespace(t[|t| - 1])
    ensures Includes(Trim(s), t) <==> Includes(s, t)
  {
    var p :| PaddedAt(s, Trim(s), p);
    IncludesIgnoresPadding(s, Trim(s), p, t);
  }
}
