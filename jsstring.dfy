/** The parts of JavaScript's string library the application relies on: the `\s` class,
    `String.prototype.trim`, `indexOf`, `includes`, and `replace` with a string pattern.
    Strings are sequences of code points (JavaScript strings are UTF-16 code units). */
module JsString {
  import opened Wrappers

  /** ECMAScript LineTerminator: the characters `.` does not match. */
  predicate IsLineTerminator(c: char)
  {
    c == '\n' || c == '\r' || c == '\U{2028}' || c == '\U{2029}'
  }

  /** ECMAScript WhiteSpace or LineTerminator: the class `\s`, and what `trim` removes. */
  predicate IsWhitespace(c: char)
  {
    || IsLineTerminator(c)
    || c == '\t' || c == '\U{000B}' || c == '\U{000C}' || c == ' '
    || c == '\U{00A0}' || c == '\U{1680}' || ('\U{2000}' <= c <= '\U{200A}')
    || c == '\U{202F}' || c == '\U{205F}' || c == '\U{3000}' || c == '\U{FEFF}'
  }

  predicate AllWhitespace(s: string)
  {
    forall i :: 0 <= i < |s| ==> IsWhitespace(s[i])
  }

  /** No whitespace at either end. */
  predicate Trimmed(s: string)
  {
    s == [] || (!IsWhitespace(s[0]) && !IsWhitespace(s[|s| - 1]))
  }

  /** The end of the whitespace run that starts at `i`: what `\s*` consumes there, and
      where the part `trim` keeps begins. */
  function SkipWhitespace(s: string, i: nat): (j: nat)
    requires i <= |s|
    ensures i <= j <= |s| && AllWhitespace(s[i..j])
    ensures j == |s| || !IsWhitespace(s[j])
    decreases |s| - i
  {
    if i < |s| && IsWhitespace(s[i]) then SkipWhitespace(s, i + 1) else i
  }

  /** The start of the whitespace run that ends at `j`, not going below `lo`: where the
      part `trim` keeps ends. */
  function SkipWhitespaceBack(s: string, lo: nat, j: nat): (i: nat)
    requires lo <= j <= |s|
    ensures lo <= i <= j && AllWhitespace(s[i..j])
    ensures i == lo || !IsWhitespace(s[i - 1])
    decreases j - lo
  {
    if lo < j && IsWhitespace(s[j - 1]) then
      var i := SkipWhitespaceBack(s, lo, j - 1);
      WhitespaceExtends(s, i, j);
      i
    else j
  }

  lemma WhitespaceExtends(s: string, i: nat, j: nat)
    requires i < j <= |s| && AllWhitespace(s[i..j - 1]) && IsWhitespace(s[j - 1])
    ensures AllWhitespace(s[i..j])
  {
    forall k | 0 <= k < j - i ensures IsWhitespace(s[i..j][k]) {
      if k < j - 1 - i {
        assert s[i..j][k] == s[i..j - 1][k];
      }
    }
  }

  /** `String.prototype.trim`: the result is a slice of `s` with no whitespace at either
      end, and everything cut off on either side is whitespace. */
  function Trim(s: string): (r: string)
    ensures Trimmed(r)
    ensures exists i, j :: 0 <= i <= j <= |s| && r == s[i..j] && AllWhitespace(s[..i]) && AllWhitespace(s[j..])
  {
    var i := SkipWhitespace(s, 0);
    var j := SkipWhitespaceBack(s, i, |s|);
    assert s[..i] == s[0..i] && s[j..] == s[j..|s|];
    s[i..j]
  }

  /** The backward scan stops above any character that is not whitespace. */
  lemma {:induction false} BackScanStopsAbove(s: string, lo: nat, j: nat, k: nat)
    requires lo <= k < j <= |s| && !IsWhitespace(s[k])
    ensures SkipWhitespaceBack(s, lo, j) > k
    decreases j
  {
    if j - 1 > k && IsWhitespace(s[j - 1]) {
      BackScanStopsAbove(s, lo, j - 1, k);
    }
  }

  lemma TrimEmptyIffAllWhitespace(s: string)
    ensures Trim(s) == [] <==> AllWhitespace(s)
  {
    var i := SkipWhitespace(s, 0);
    if i < |s| {
      BackScanStopsAbove(s, i, |s|, i);
    } else {
      assert s[0..i] == s;
    }
  }

  /** `trim` leaves a string without edge whitespace as it is (so it is idempotent). */
  lemma TrimOfTrimmed(s: string)
    requires Trimmed(s)
    ensures Trim(s) == s
  {
  }

  predicate OccursAt(s: string, t: string, i: nat)
  {
    i + |t| <= |s| && s[i..i + |t|] == t
  }

  /** `s.indexOf(t, from)`: the first occurrence of `t` at or after `from`. */
  function IndexOfFrom(s: string, t: string, from: nat): (r: Option<nat>)
    requires from <= |s|
    ensures r.Some? ==> from <= r.value && OccursAt(s, t, r.value)
    ensures r.Some? ==> forall k: nat :: from <= k < r.value ==> !OccursAt(s, t, k)
    ensures r.None? ==> forall k: nat :: from <= k ==> !OccursAt(s, t, k)
    decreases |s| - from
  {
    if OccursAt(s, t, from) then Some(from)
    else if from == |s| then None
    else IndexOfFrom(s, t, from + 1)
  }

  function IndexOf(s: string, t: string): (r: Option<nat>)
    ensures r.Some? ==> OccursAt(s, t, r.value) && forall k: nat :: k < r.value ==> !OccursAt(s, t, k)
    ensures r.None? <==> forall k: nat :: !OccursAt(s, t, k)
  {
    IndexOfFrom(s, t, 0)
  }

  /** `s.includes(t)`. */
  function Includes(s: string, t: string): (b: bool)
    ensures b <==> exists k: nat :: OccursAt(s, t, k)
  {
    IndexOf(s, t).Some?
  }

  /** `s.replace(t, rep)` with a string pattern: only the first occurrence is replaced. */
  function ReplaceFirst(s: string, t: string, rep: string): (r: string)
    ensures (forall k: nat :: !OccursAt(s, t, k)) ==> r == s
  {
    match IndexOf(s, t)
    case None => s
    case Some(i) => s[..i] + rep + s[i + |t|..]
  }

  /** At the first occurrence `i`, the replacement cuts out `t` there and puts `rep` in. */
  lemma ReplaceFirstAt(s: string, t: string, rep: string, i: nat)
    requires OccursAt(s, t, i) && forall k: nat :: k < i ==> !OccursAt(s, t, k)
    ensures ReplaceFirst(s, t, rep) == s[..i] + rep + s[i + |t|..]
  {
    assert IndexOf(s, t) == Some(i);
  }
}
