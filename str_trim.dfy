/**
 * Rust's `str::trim`: the slice of a string left after removing every leading
 * and every trailing whitespace character, where "whitespace" is what
 * `char::is_whitespace` tests.
 */
module StrTrim {

  /**
   * The Unicode `White_Space` property, the set `char::is_whitespace` tests:
   * U+0009..U+000D, U+0020, U+0085, U+00A0, U+1680, U+2000..U+200A, U+2028,
   * U+2029, U+202F, U+205F and U+3000. No lemma below depends on the table.
   */
  predicate IsWhitespace(c: char) {
    || '\t' <= c <= '\r'
    || c == ' '
    || c == '\U{0085}'
    || c == '\U{00A0}'
    || c == '\U{1680}'
    || '\U{2000}' <= c <= '\U{200A}'
    || c == '\U{2028}'
    || c == '\U{2029}'
    || c == '\U{202F}'
    || c == '\U{205F}'
    || c == '\U{3000}'
  }

  /** Every character of `s` is whitespace (true of the empty string). */
  predicate AllWhitespace(s: string) {
    forall i :: 0 <= i < |s| ==> IsWhitespace(s[i])
  }

  /** `s` starts or ends with a whitespace character. */
  predicate HasEdgeWhitespace(s: string) {
    |s| > 0 && (IsWhitespace(s[0]) || IsWhitespace(s[|s| - 1]))
  }

  /**
   * `r` is a contiguous slice of `s` and everything of `s` before and after
   * that slice is whitespace: `r` is `s` with only edge whitespace dropped,
   * and every interior character kept in place and in order.
   */
  ghost predicate DropsOnlyEdgeWhitespace(s: string, r: string) {
    exists lo :: EdgeSlice(s, lo, r)
  }

  /** `str::trim_start`: drops leading whitespace only. */
  function TrimStart(s: string): (r: string)
    ensures |r| <= |s| && r == s[|s| - |r|..]
    ensures AllWhitespace(s[..|s| - |r|])
    ensures r == [] || !IsWhitespace(r[0])
  {
    if s != [] && IsWhitespace(s[0]) then
      var tail := s[1..];
      var r := TrimStart(tail);
      assert tail[|tail| - |r|..] == s[|s| - |r|..];
      assert s[..|s| - |r|] == [s[0]] + tail[..|tail| - |r|];
      r
    else
      s
  }

  /** `str::trim_end`: drops trailing whitespace only. */
  function TrimEnd(s: string): (r: string)
    ensures |r| <= |s| && r == s[..|r|]
    ensures AllWhitespace(s[|r|..])
    ensures r == [] || !IsWhitespace(r[|r| - 1])
  {
    if s != [] && IsWhitespace(s[|s| - 1]) then
      var init := s[..|s| - 1];
      var r := TrimEnd(init);
      assert init[..|r|] == s[..|r|];
      assert s[|r|..] == init[|r|..] + [s[|s| - 1]];
      r
    else
      s
  }

  /** `str::trim`: drops leading and trailing whitespace. */
  function Trim(s: string): (r: string)
    ensures DropsOnlyEdgeWhitespace(s, r)
    ensures !HasEdgeWhitespace(r)
  {
    var t := TrimStart(s);
    var r := TrimEnd(t);
    var lo := |s| - |t|;
    assert s[lo + |r|..] == t[|r|..];
    assert EdgeSlice(s, lo, r);
    r
  }

  /**
   * The two postconditions of Trim determine its result: a string is the
   * trim of `s` exactly when it is `s` with only edge whitespace dropped and
   * has no whitespace at either edge.
   */
  lemma TrimCharacterised(s: string, r: string)
    ensures r == Trim(s) <==> DropsOnlyEdgeWhitespace(s, r) && !HasEdgeWhitespace(r)
  {
    var t := Trim(s);
    if DropsOnlyEdgeWhitespace(s, r) && !HasEdgeWhitespace(r) {
      var lr :| EdgeSlice(s, lr, r);
      var lt :| EdgeSlice(s, lt, t);
      if r == [] {
        BlankHasEmptyTrim(s, lr, t, lt);
      } else if t == [] {
        BlankHasEmptyTrim(s, lt, r, lr);
      } else {
        SameEdges(s, lr, r, lt, t);
        SameEdges(s, lt, t, lr, r);
      }
    }
  }

  /** `r` sits at `lo` in `s` with only whitespace around it. */
  ghost predicate EdgeSlice(s: string, lo: int, r: string) {
    0 <= lo <= |s| - |r| && s[lo..lo + |r|] == r
      && AllWhitespace(s[..lo]) && AllWhitespace(s[lo + |r|..])
  }

  /**
   * Two non-empty slices of `s`, each with only whitespace around it and
   * none at its own edges, cannot start or end at different places: the
   * first one cannot start later or end earlier than the second.
   */
  lemma SameEdges(s: string, lr: int, r: string, lt: int, t: string)
    requires EdgeSlice(s, lr, r) && r != [] && !HasEdgeWhitespace(r)
    requires EdgeSlice(s, lt, t) && t != [] && !HasEdgeWhitespace(t)
    ensures lr <= lt && lt + |t| <= lr + |r|
  {
    // the first and last characters of t are not whitespace
    assert !IsWhitespace(s[lt]) && !IsWhitespace(s[lt + |t| - 1]);
    // but everything before lr and from lr + |r| on is
    assert forall i :: 0 <= i < lr ==> s[..lr][i] == s[i];
    assert forall i :: lr + |r| <= i < |s| ==> s[lr + |r|..][i - (lr + |r|)] == s[i];
  }

  /**
   * If `s` is whitespace around the empty slice at `le`, then a slice of `s`
   * without edge whitespace is empty.
   */
  lemma BlankHasEmptyTrim(s: string, le: int, t: string, lo: int)
    requires EdgeSlice(s, le, [])
    requires EdgeSlice(s, lo, t) && !HasEdgeWhitespace(t)
    ensures t == []
  {
    assert forall i :: 0 <= i < le ==> s[..le][i] == s[i];
    assert forall i :: le <= i < |s| ==> s[le..][i - le] == s[i];
  }

  /** A string with no whitespace at either edge is left unchanged by Trim. */
  lemma TrimKeepsTrimmed(s: string)
    requires !HasEdgeWhitespace(s)
    ensures Trim(s) == s
  {
    assert s[0..0 + |s|] == s && s[..0] == [] && s[|s|..] == [];
    TrimCharacterised(s, s);
  }

  /** Trimming is idempotent. */
  lemma TrimIdempotent(s: string)
    ensures Trim(Trim(s)) == Trim(s)
  {
    TrimKeepsTrimmed(Trim(s));
  }

  /** Trim returns the empty string exactly when `s` is empty or all whitespace. */
  lemma TrimEmptyIffBlank(s: string)
    ensures Trim(s) == [] <==> AllWhitespace(s)
  {
    var t := Trim(s);
    var lt :| EdgeSlice(s, lt, t);
    assert forall i :: 0 <= i < lt ==> s[..lt][i] == s[i];
    assert forall i :: lt + |t| <= i < |s| ==> s[lt + |t|..][i - (lt + |t|)] == s[i];
    assert t != [] ==> !IsWhitespace(s[lt]);
  }
}
