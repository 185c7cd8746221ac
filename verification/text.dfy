/**
 * The ordinal .NET string operations the parsers rely on: `char.IsWhiteSpace`,
 * `string.IsNullOrWhiteSpace`, `Trim`, `StartsWith`, `Contains` and `Replace`.
 * Strings are sequences of characters; all comparisons are ordinal.
 */
module Text {
  import opened Wrappers

  /** `char.IsWhiteSpace`: the Unicode space, line and paragraph separators,
      the controls U+0009..U+000D and U+0085. */
  function IsWhiteSpace(c: char): (b: bool)
    ensures c < '\U{0080}' ==> (b <==> c == ' ' || '\t' <= c <= '\r')
    ensures b ==> '\t' <= c <= '\U{3000}'
  {
    || c == ' '
    || ('\t' <= c <= '\r')
    || c == '\U{0085}'
    || c == '\U{00A0}'
    || c == '\U{1680}'
    || ('\U{2000}' <= c <= '\U{200A}')
    || c == '\U{2028}'
    || c == '\U{2029}'
    || c == '\U{202F}'
    || c == '\U{205F}'
    || c == '\U{3000}'
  }

  predicate AllWhiteSpace(s: string) {
    forall i :: 0 <= i < |s| ==> IsWhiteSpace(s[i])
  }

  /** Every character of `s` at positions `lo` up to `hi` is white space. */
  predicate WhiteSpaceBetween(s: string, lo: int, hi: int) {
    forall i :: lo <= i < hi && 0 <= i < |s| ==> IsWhiteSpace(s[i])
  }

  /** `string.IsNullOrWhiteSpace`, with `None` standing for null. */
  function IsNullOrWhiteSpace(s: Option<string>): (b: bool)
    ensures b <==> s.None? || Trim(s.value) == []
  {
    s.None? || AllWhiteSpace(s.value)
  }

  /** Scanning forward from `i`, the position of the first character that is
      not white space (`|s|` if there is none). */
  function FirstNonWhiteSpace(s: string, i: nat): (n: nat)
    requires i <= |s|
    ensures i <= n <= |s|
    ensures WhiteSpaceBetween(s, i, n)
    ensures n < |s| ==> !IsWhiteSpace(s[n])
    decreases |s| - i
  {
    if i < |s| && IsWhiteSpace(s[i]) then FirstNonWhiteSpace(s, i + 1) else i
  }

  /** Scanning backward from `j` down to `lo`, the position just after the last
      character that is not white space (`lo` if there is none). */
  function EndOfNonWhiteSpace(s: string, lo: nat, j: nat): (n: nat)
    requires lo <= j <= |s|
    ensures lo <= n <= j
    ensures WhiteSpaceBetween(s, n, j)
    ensures n > lo ==> !IsWhiteSpace(s[n - 1])
    decreases j
  {
    if j > lo && IsWhiteSpace(s[j - 1]) then EndOfNonWhiteSpace(s, lo, j - 1) else j
  }

  /** `r` is the infix of `s` starting at `k`, and everything around it is white space. */
  predicate TrimmedAt(s: string, r: string, k: int) {
    && 0 <= k <= |s| - |r|
    && r == s[k..k + |r|]
    && WhiteSpaceBetween(s, 0, k)
    && WhiteSpaceBetween(s, k + |r|, |s|)
  }

  /** `string.Trim()`: the infix of `s` left once the white space at both
      ends is removed. */
  function Trim(s: string): (r: string)
    ensures exists k :: TrimmedAt(s, r, k)
    ensures r != [] ==> !IsWhiteSpace(r[0]) && !IsWhiteSpace(r[|r| - 1])
    ensures r == [] <==> AllWhiteSpace(s)
  {
    var a := FirstNonWhiteSpace(s, 0);
    var b := EndOfNonWhiteSpace(s, a, |s|);
    assert TrimmedAt(s, s[a..b], a);
    assert a < b ==> s[a..b][0] == s[a];
    s[a..b]
  }

  /** Dropping a prefix of `a` from `a + m + b`. */
  lemma DropAppend3<T>(a: seq<T>, m: seq<T>, b: seq<T>, n: nat)
    requires n <= |a|
    ensures (a + m + b)[n..] == a[n..] + m + b
  {
  }

  /** Regrouping a concatenation behind a head. */
  lemma Regroup<T>(h: seq<T>, x: seq<T>, y: seq<T>, z: seq<T>)
    ensures h + (x + y + z) == (h + x) + y + z
  {
  }

  /** Ordinal `s.StartsWith(p)`. Every string starts with the empty string,
      and nothing longer than `s` is a prefix of it. */
  function StartsWith(s: string, p: string): (b: bool)
    ensures p == [] ==> b
    ensures b ==> |p| <= |s|
  {
    |p| <= |s| && s[..|p|] == p
  }

  /** A string with `c` in front starts with `p` exactly when `p` starts
      with `c` and the string behind it starts with the rest of `p`. */
  lemma StartsWithCons(c: char, t: string, p: string)
    requires p != []
    ensures StartsWith([c] + t, p) <==> c == p[0] && StartsWith(t, p[1..])
  {
    assert p == [p[0]] + p[1..];
    if |p| <= |t| + 1 {
      assert ([c] + t)[..|p|] == [c] + t[..|p| - 1];
    }
  }

  /** Ordinal `s.Contains(t)`: `t` occurs in `s` at some position. A prefix
      occurs (so every string contains the empty string), and nothing longer
      than `s` does. */
  function Contains(s: string, t: string): (b: bool)
    ensures StartsWith(s, t) ==> b
    ensures |s| < |t| ==> !b
  {
    assert StartsWith(s, t) ==> OccursAt(s, t, 0);
    exists i :: 0 <= i <= |s| - |t| && OccursAt(s, t, i)
  }

  /** `t` occurs in `s` at position `i`. */
  predicate OccursAt(s: string, t: string, i: int) {
    0 <= i <= |s| - |t| && s[i..i + |t|] == t
  }

  /** An occurrence in the tail of `s` is an occurrence in `s`. */
  lemma ContainsTail(s: string, t: string)
    requires s != []
    ensures Contains(s[1..], t) ==> Contains(s, t)
  {
    if Contains(s[1..], t) {
      var i :| 0 <= i <= |s[1..]| - |t| && OccursAt(s[1..], t, i);
      assert s[i + 1..i + 1 + |t|] == s[1..][i..i + |t|];
      assert OccursAt(s, t, i + 1);
    }
  }

  /** An occurrence of an occurrence is an occurrence. */
  lemma ContainsInfix(s: string, t: string, u: string)
    requires Contains(s, t) && Contains(t, u)
    ensures Contains(s, u)
  {
    var i :| 0 <= i <= |s| - |t| && OccursAt(s, t, i);
    var j :| 0 <= j <= |t| - |u| && OccursAt(t, u, j);
    assert s[i..i + |t|] == t;
    forall k | 0 <= k < |u| ensures s[i + j + k] == u[k] {
      assert s[i + j + k] == s[i..i + |t|][j + k] == t[j + k];
      assert t[j + k] == t[j..j + |u|][k];
    }
    assert s[i + j..i + j + |u|] == u;
    assert OccursAt(s, u, i + j);
  }

  /** `terms.Any(term => s.Contains(term))`. */
  function ContainsAny(s: string, terms: seq<string>): (b: bool)
    ensures b <==> exists t :: t in terms && Contains(s, t)
  {
    if terms == [] then false
    else
      assert forall t :: t in terms <==> t == terms[0] || t in terms[1..];
      Contains(s, terms[0]) || ContainsAny(s, terms[1..])
  }

  /** Ordinal `s.Replace(pat, rep)`: every occurrence of `pat`, scanned left to
      right without overlap, is replaced by `rep`. .NET refuses an empty `pat`. */
  function Replace(s: string, pat: string, rep: string): (r: string)
    requires pat != []
    ensures !Contains(s, pat) ==> r == s
    decreases |s|
  {
    if StartsWith(s, pat) then
      rep + Replace(s[|pat|..], pat, rep)
    else if s == [] then
      []
    else
      ContainsTail(s, pat);
      [s[0]] + Replace(s[1..], pat, rep)
  }
}
