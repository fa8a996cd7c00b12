/** The pieces of Python's string runtime the reformatter relies on: the `\w`
    character class, `str.isspace`, `str.lower` and `str.strip`. */
module Text {

  /** `\w`, restricted to ASCII: letters, digits and the underscore. */
  predicate IsWordChar(c: char) {
    ('a' <= c <= 'z') || ('A' <= c <= 'Z') || ('0' <= c <= '9') || c == '_'
  }

  /** The characters Python's `str.strip()` removes (those for which
      `str.isspace` holds). */
  predicate IsSpace(c: char) {
    || c == ' '
    || ('\t' <= c <= '\r')
    || ('\U{1C}' <= c <= '\U{1F}')
    || c == '\U{85}' || c == '\U{A0}' || c == '\U{1680}'
    || ('\U{2000}' <= c <= '\U{200A}')
    || c == '\U{2028}' || c == '\U{2029}' || c == '\U{202F}'
    || c == '\U{205F}' || c == '\U{3000}'
  }

  predicate IsUpper(c: char) {
    'A' <= c <= 'Z'
  }

  /** `str.lower` on one character, for the ASCII letters. */
  function LowerChar(c: char): (d: char)
    ensures !IsUpper(d)
    ensures IsUpper(c) ==> d as int == c as int + 32
    ensures !IsUpper(c) ==> d == c
  {
    if IsUpper(c) then (c as int + 32) as char else c
  }

  /** `str.lower`: every character mapped through `LowerChar`. */
  function Lower(s: string): (r: string)
    ensures |r| == |s|
    ensures forall i :: 0 <= i < |s| ==> r[i] == LowerChar(s[i])
  {
    seq(|s|, i requires 0 <= i < |s| => LowerChar(s[i]))
  }

  /** Two strings equal up to ASCII case, stated character by character. */
  predicate EqualIgnoringCase(a: string, b: string) {
    |a| == |b| && forall i :: 0 <= i < |a| ==> LowerChar(a[i]) == LowerChar(b[i])
  }

  lemma LowerIdempotent(s: string)
    ensures Lower(Lower(s)) == Lower(s)
  {
  }

  lemma LowerDecidesCase(a: string, b: string)
    ensures EqualIgnoringCase(a, b) <==> Lower(a) == Lower(b)
  {
    if Lower(a) == Lower(b) {
      assert forall i :: 0 <= i < |a| ==> Lower(a)[i] == Lower(b)[i];
    }
  }

  predicate AllSpace(s: string) {
    forall k :: 0 <= k < |s| ==> IsSpace(s[k])
  }

  /** Non-empty, beginning and ending with a non-whitespace character. */
  predicate Clean(s: string) {
    |s| > 0 && !IsSpace(s[0]) && !IsSpace(s[|s| - 1])
  }

  /** What `strip()` leaves: nothing, or a clean string. */
  predicate NoEdgeSpace(s: string) {
    |s| == 0 || Clean(s)
  }

  /** `r` is the slice of `s` starting at `i`, and everything of `s` outside
      that slice is whitespace. */
  predicate StripsTo(s: string, i: int, r: string) {
    && 0 <= i <= |s| - |r|
    && s[i..i + |r|] == r
    && (forall k :: 0 <= k < i ==> IsSpace(s[k]))
    && (forall k :: i + |r| <= k < |s| ==> IsSpace(s[k]))
  }

  /** Number of leading whitespace characters. */
  function LeadingSpace(s: string): (n: nat)
    ensures n <= |s|
    ensures forall k :: 0 <= k < n ==> IsSpace(s[k])
    ensures n == |s| || !IsSpace(s[n])
  {
    if |s| == 0 || !IsSpace(s[0]) then 0 else 1 + LeadingSpace(s[1..])
  }

  /** Number of trailing whitespace characters. */
  function TrailingSpace(s: string): (n: nat)
    ensures n <= |s|
    ensures forall k :: |s| - n <= k < |s| ==> IsSpace(s[k])
    ensures n == |s| || !IsSpace(s[|s| - 1 - n])
  {
    if |s| == 0 || !IsSpace(s[|s| - 1]) then 0 else 1 + TrailingSpace(s[..|s| - 1])
  }

  /** `str.lstrip()`. */
  function LStrip(s: string): (r: string)
    ensures StripsTo(s, |s| - |r|, r)
    ensures |r| == 0 || !IsSpace(r[0])
  {
    s[LeadingSpace(s)..]
  }

  /** `str.strip()`: the leading and the trailing whitespace removed. */
  function Strip(s: string): (r: string)
    ensures NoEdgeSpace(r)
    ensures exists i :: StripsTo(s, i, r)
  {
    var a := LeadingSpace(s);
    var u := s[a..];
    var b := TrailingSpace(u);
    var r := u[..|u| - b];
    assert s[a..a + |r|] == r;
    assert s[a + |r|..] == u[|u| - b..];
    assert StripsTo(s, a, r);
    r
  }

  /** A whitespace-free-edged slice with only whitespace around it is empty
      exactly when the whole string is whitespace. */
  lemma StripsToEmptyIffAllSpace(s: string, i: int, r: string)
    requires StripsTo(s, i, r) && NoEdgeSpace(r)
    ensures |r| == 0 <==> AllSpace(s)
  {
    if |r| > 0 {
      assert s[i] == r[0];
    }
  }

  /** The strip of a string is determined by the two facts in `Strip`'s
      contract: any clean slice with only whitespace around it is that strip. */
  lemma StripIsUnique(s: string, i: int, r: string, j: int, q: string)
    requires StripsTo(s, i, r) && NoEdgeSpace(r)
    requires StripsTo(s, j, q) && NoEdgeSpace(q)
    ensures r == q
  {
    StripsToEmptyIffAllSpace(s, i, r);
    StripsToEmptyIffAllSpace(s, j, q);
    if |r| > 0 {
      assert s[i] == r[0] && s[j] == q[0];
      assert i == j;
      assert s[i + |r| - 1] == r[|r| - 1] && s[j + |q| - 1] == q[|q| - 1];
      assert |r| == |q|;
    }
  }

  predicate StartsWith(s: string, prefix: string) {
    |prefix| <= |s| && s[..|prefix|] == prefix
  }

  predicate EndsWith(s: string, suffix: string) {
    |suffix| <= |s| && s[|s| - |suffix|..] == suffix
  }

  predicate InfixAt(s: string, v: string, k: int) {
    0 <= k <= |s| - |v| && s[k..k + |v|] == v
  }

  predicate IsInfix(s: string, v: string) {
    exists k :: 0 <= k <= |s| - |v| && InfixAt(s, v, k)
  }

  /** Stripping never cuts into a clean piece of the text: a clean slice of
      `s` survives in `Strip(s)`, at its front when it opened `s` and at its
      end when it closed `s`. */
  lemma StripKeepsClean(s: string, o: int, v: string)
    requires InfixAt(s, v, o) && Clean(v)
    ensures IsInfix(Strip(s), v)
    ensures o == 0 ==> StartsWith(Strip(s), v)
    ensures o + |v| == |s| ==> EndsWith(Strip(s), v)
  {
    var r := Strip(s);
    var i :| StripsTo(s, i, r);
    var e := o + |v|;
    assert s[o] == v[0] && s[e - 1] == v[|v| - 1];
    assert i <= o && e <= i + |r|;
    assert s[i..i + |r|] == r;
    assert forall k :: o - i <= k < e - i ==> r[k] == s[i + k];
    assert r[o - i..e - i] == s[o..e];
    assert InfixAt(r, v, o - i);
  }

  /** A string that is already clean is its own strip. */
  lemma StripClean(s: string)
    requires Clean(s)
    ensures Strip(s) == s
  {
    assert s[0..|s|] == s;
    StripKeepsClean(s, 0, s);
    var r := Strip(s);
    var i :| StripsTo(s, i, r);
  }

  /** Trailing whitespace after a clean string is all that stripping removes. */
  lemma StripTrailingSpace(v: string, spaces: string)
    requires Clean(v) && AllSpace(spaces)
    ensures Strip(v + spaces) == v
  {
    var s := v + spaces;
    var r := Strip(s);
    var i :| StripsTo(s, i, r);
    assert s[0..|v|] == v;
    assert StripsTo(s, 0, v);
    StripIsUnique(s, i, r, 0, v);
  }

  /** A string of whitespace strips to nothing. */
  lemma StripAllSpace(s: string)
    requires AllSpace(s)
    ensures Strip(s) == []
  {
    var r := Strip(s);
    var i :| StripsTo(s, i, r);
    StripsToEmptyIffAllSpace(s, i, r);
  }

  /** Text after the first non-whitespace character is untouched by `lstrip`. */
  lemma LStripAppend(a: string, b: string)
    requires !AllSpace(a)
    ensures LStrip(a + b) == LStrip(a) + b
  {
    var n := LeadingSpace(a);
    LeadingSpaceAppend(a, b);
    assert (a + b)[n..] == a[n..] + b;
  }

  lemma {:induction false} LeadingSpaceAppend(a: string, b: string)
    requires !AllSpace(a)
    ensures LeadingSpace(a + b) == LeadingSpace(a)
    decreases |a|
  {
    assert |a| > 0;
    assert (a + b)[0] == a[0];
    if IsSpace(a[0]) {
      assert !AllSpace(a[1..]) by {
        var k :| 0 <= k < |a| && !IsSpace(a[k]);
        assert a[1..][k - 1] == a[k];
      }
      LeadingSpaceAppend(a[1..], b);
      assert (a + b)[1..] == a[1..] + b;
    }
  }

  /** Leading whitespace never changes what `lstrip` leaves. */
  lemma LStripSpaces(spaces: string, s: string)
    requires AllSpace(spaces)
    ensures LStrip(spaces + s) == LStrip(s)
  {
    var u := spaces + s;
    assert u[|spaces|..] == s;
    assert LeadingSpace(u) == |spaces| + LeadingSpace(s) by {
      LeadingSpaceOfSpaces(spaces, s);
    }
  }

  lemma {:induction false} LeadingSpaceOfSpaces(spaces: string, s: string)
    requires AllSpace(spaces)
    ensures LeadingSpace(spaces + s) == |spaces| + LeadingSpace(s)
    decreases |spaces|
  {
    if |spaces| > 0 {
      assert (spaces + s)[0] == spaces[0];
      assert (spaces + s)[1..] == spaces[1..] + s;
      LeadingSpaceOfSpaces(spaces[1..], s);
    } else {
      assert spaces + s == s;
    }
  }

  /** Text that ends in a non-whitespace character loses nothing at its right
      end: `strip` and `lstrip` agree on it. */
  lemma StripWithoutTrailingSpace(s: string)
    requires |s| > 0 && !IsSpace(s[|s| - 1])
    ensures Strip(s) == LStrip(s)
  {
    var r := Strip(s);
    var i :| StripsTo(s, i, r);
    var l := LStrip(s);
    assert StripsTo(s, |s| - |l|, l);
    StripIsUnique(s, i, r, |s| - |l|, l);
  }

  /** Whitespace appended to text that ends in a non-whitespace character is
      removed by `strip` and nothing else changes. */
  lemma StripDropsTrailingSpace(v: string, spaces: string)
    requires |v| > 0 && !IsSpace(v[|v| - 1]) && AllSpace(spaces)
    ensures Strip(v + spaces) == Strip(v)
  {
    var s := v + spaces;
    var r := Strip(v);
    var i :| StripsTo(v, i, r);
    StripsToEmptyIffAllSpace(v, i, r);
    assert |r| > 0 by {
      assert !AllSpace(v) by { assert !IsSpace(v[|v| - 1]); }
    }
    assert i + |r| == |v| by {
      assert v[i + |r| - 1] == r[|r| - 1];
    }
    assert s[i..i + |r|] == v[i..i + |r|];
    assert forall k :: i + |r| <= k < |s| ==> s[k] == spaces[k - |v|];
    assert StripsTo(s, i, r);
    var q := Strip(s);
    var j :| StripsTo(s, j, q);
    StripIsUnique(s, j, q, i, r);
  }

  /** `n` tab characters: the indentation `textify` prepends. */
  function Tabs(n: nat): (r: string)
    ensures |r| == n
    ensures forall k :: 0 <= k < n ==> r[k] == '\t'
  {
    seq(n, _ => '\t')
  }
}
