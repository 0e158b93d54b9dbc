/**
 * The two string operations of the ECMAScript runtime that the detector
 * relies on: `String.prototype.trim` and `String.prototype.includes`.
 */
module Text {

  /**
   * The WhiteSpace and LineTerminator code points of ECMAScript, the set that
   * `trim` removes: tab, line feed, line tabulation, form feed and carriage
   * return (U+0009 to U+000D), space, no-break space, the other Unicode
   * "Space_Separator" characters (U+1680, U+2000 to U+200A, U+202F, U+205F,
   * U+3000), the line and paragraph separators (U+2028, U+2029) and the
   * zero-width no-break space (U+FEFF).
   */
  predicate IsJsSpace(c: char) {
    || '\t' <= c <= '\r'
    || c == ' ' || c == '\U{00A0}' || c == '\U{1680}'
    || '\U{2000}' <= c <= '\U{200A}'
    || c == '\U{2028}' || c == '\U{2029}' || c == '\U{202F}' || c == '\U{205F}'
    || c == '\U{3000}' || c == '\U{FEFF}'
  }

  ghost predicate AllSpace(s: string) {
    forall k :: 0 <= k < |s| ==> IsJsSpace(s[k])
  }

  /** `s.includes(sub)`: `sub` occurs in `s` at some position. */
  predicate Contains(s: string, sub: string) {
    exists i :: 0 <= i <= |s| && sub <= s[i..]
  }

  /** The first position at or after `k` that does not hold white space (`|s|` if none). */
  function SpanStart(s: string, k: nat): (r: nat)
    requires k <= |s|
    ensures k <= r <= |s|
    ensures forall j :: k <= j < r ==> IsJsSpace(s[j])
    ensures r == |s| || !IsJsSpace(s[r])
    decreases |s| - k
  {
    if k < |s| && IsJsSpace(s[k]) then SpanStart(s, k + 1) else k
  }

  /** The position just after the last non-space in `s[lo..k]` (`lo` if none). */
  function SpanEnd(s: string, lo: nat, k: nat): (r: nat)
    requires lo <= k <= |s|
    ensures lo <= r <= k
    ensures forall j :: r <= j < k ==> IsJsSpace(s[j])
    ensures r == lo || !IsJsSpace(s[r - 1])
    decreases k
  {
    if lo < k && IsJsSpace(s[k - 1]) then SpanEnd(s, lo, k - 1) else k
  }

  /** `s.trim()`: the text between the leading and the trailing white space. */
  function Trim(s: string): string {
    var i := SpanStart(s, 0);
    s[i..SpanEnd(s, i, |s|)]
  }

  /**
   * `trim` keeps a slice `s[i..j]` of `s`: what it drops in front and behind
   * is all white space, and what it keeps is empty or starts and ends with a
   * non-space.
   */
  lemma TrimShape(s: string) returns (i: nat, j: nat)
    ensures i <= j <= |s| && Trim(s) == s[i..j]
    ensures AllSpace(s[..i]) && AllSpace(s[j..])
    ensures i == j || (!IsJsSpace(s[i]) && !IsJsSpace(s[j - 1]))
  {
    i := SpanStart(s, 0);
    j := SpanEnd(s, i, |s|);
  }

  /** Trimming leaves nothing exactly when the text is all white space. */
  lemma TrimEmptyIff(s: string)
    ensures Trim(s) == [] <==> AllSpace(s)
  {
    var i, j := TrimShape(s);
    if i == j {
      forall k | 0 <= k < |s|
        ensures IsJsSpace(s[k])
      {
        if k < i {
          assert s[..i][k] == s[k];
        } else {
          assert s[j..][k - j] == s[k];
        }
      }
    }
  }

  /** The trimmed text occurs in the text, so whatever occurs in it occurs in the text. */
  lemma TrimContained(s: string)
    ensures Contains(s, Trim(s))
  {
    var i, j := TrimShape(s);
    assert Trim(s) <= s[i..];
  }

  /** Trimming twice is trimming once. */
  lemma TrimIdempotent(s: string)
    ensures Trim(Trim(s)) == Trim(s)
  {
    var i, j := TrimShape(s);
    var t := Trim(s);
    if t != [] {
      assert t[0] == s[i] && t[|t| - 1] == s[j - 1];
      assert SpanStart(t, 0) == 0;
      assert SpanEnd(t, 0, |t|) == |t|;
      assert t[0..|t|] == t;
    }
  }

  /** Containment is transitive: whatever occurs in a substring of `s` occurs in `s`. */
  lemma ContainsTransitive(s: string, mid: string, sub: string)
    requires Contains(s, mid) && Contains(mid, sub)
    ensures Contains(s, sub)
  {
    var i :| 0 <= i <= |s| && mid <= s[i..];
    var j :| 0 <= j <= |mid| && sub <= mid[j..];
    assert mid[j..] <= s[i + j..];
  }
}
