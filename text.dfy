// String helpers with Python's semantics: `str.startswith` and the
// argument-less `str.strip`, which removes every leading and trailing
// character for which `str.isspace` holds.
//
// The trimming functions carry no postconditions of their own: what they
// compute is stated by the lemmas after them, so that a proof that only
// mentions a stripped string does not pay for those facts.
module Text {

  /** The characters Python's `str.isspace` accepts: the ASCII controls
      TAB..CR and FS..US, SPACE, NEL, NO-BREAK SPACE and the Unicode
      space separators, line and paragraph separators. */
  predicate IsSpace(c: char) {
    ('\U{9}' <= c <= '\U{D}') || ('\U{1C}' <= c <= '\U{20}')
    || c == '\U{85}' || c == '\U{A0}' || c == '\U{1680}'
    || ('\U{2000}' <= c <= '\U{200A}')
    || c == '\U{2028}' || c == '\U{2029}' || c == '\U{202F}'
    || c == '\U{205F}' || c == '\U{3000}'
  }

  /** Every character of `t` is whitespace. */
  predicate AllSpace(t: string) {
    forall k :: 0 <= k < |t| ==> IsSpace(t[k])
  }

  /** `s` is empty or neither begins nor ends with whitespace. */
  predicate Trimmed(s: string) {
    s == [] || (!IsSpace(s[0]) && !IsSpace(s[|s| - 1]))
  }

  /** `s.startswith(p)` */
  predicate StartsWith(s: string, p: string) {
    |p| <= |s| && s[..|p|] == p
  }

  /** `s.lstrip()` */
  function TrimLeft(s: string): string {
    if |s| > 0 && IsSpace(s[0]) then TrimLeft(s[1..]) else s
  }

  /** `s.rstrip()` */
  function TrimRight(s: string): string {
    if |s| > 0 && IsSpace(s[|s| - 1]) then TrimRight(s[..|s| - 1]) else s
  }

  /** `s.strip()` */
  function Strip(s: string): string {
    TrimRight(TrimLeft(s))
  }

  /** `lstrip` removes the longest all-whitespace prefix: the result is a
      suffix of `s`, everything cut off is whitespace and the result does
      not begin with whitespace. */
  lemma {:induction false} TrimLeftSpec(s: string)
    ensures var r := TrimLeft(s);
            && |r| <= |s| && r == s[|s| - |r|..]
            && AllSpace(s[..|s| - |r|])
            && (r == [] || !IsSpace(r[0]))
  {
    if |s| > 0 && IsSpace(s[0]) {
      TrimLeftSpec(s[1..]);
      var r := TrimLeft(s);
      assert s[..|s| - |r|] == [s[0]] + s[1..][..|s| - 1 - |r|];
    }
  }

  /** `rstrip` removes the longest all-whitespace suffix. */
  lemma {:induction false} TrimRightSpec(s: string)
    ensures var r := TrimRight(s);
            && |r| <= |s| && r == s[..|r|]
            && AllSpace(s[|r|..])
            && (r == [] || !IsSpace(r[|r| - 1]))
  {
    if |s| > 0 && IsSpace(s[|s| - 1]) {
      var p := s[..|s| - 1];
      TrimRightSpec(p);
      var r := TrimRight(s);
      assert s[|r|..] == p[|r|..] + [s[|s| - 1]];
    }
  }

  /** `strip` keeps a slice `s[lo..lo + |r|]` that neither begins nor ends
      with whitespace, and everything outside that slice is whitespace. */
  lemma StripSpec(s: string)
    ensures var r := Strip(s);
            && |r| <= |s| && Trimmed(r)
            && exists lo :: 0 <= lo <= |s| - |r| && AllSpace(s[..lo])
                           && r == s[lo..lo + |r|] && AllSpace(s[lo + |r|..])
  {
    var l := TrimLeft(s);
    var r := TrimRight(l);
    TrimLeftSpec(s);
    TrimRightSpec(l);
    var lo := |s| - |l|;
    assert r == s[lo..lo + |r|];
    assert s[lo + |r|..] == l[|r|..];
  }

  /** A string that neither begins nor ends with whitespace is its own strip. */
  lemma {:induction false} StripUnchanged(s: string)
    requires Trimmed(s)
    ensures Strip(s) == s
  {
    assert TrimLeft(s) == s;
    assert TrimRight(s) == s;
  }

  /** Stripping is idempotent. */
  lemma StripIdempotent(s: string)
    ensures Strip(Strip(s)) == Strip(s)
  {
    StripSpec(s);
    StripUnchanged(Strip(s));
  }

  /** Right-trimming `p + x`, where `p` does not end with whitespace, only
      ever removes characters of `x`. */
  lemma {:induction false} TrimRightAfter(p: string, x: string)
    requires p == [] || !IsSpace(p[|p| - 1])
    ensures TrimRight(p + x) == p + TrimRight(x)
    decreases |x|
  {
    if |x| > 0 && IsSpace(x[|x| - 1]) {
      assert (p + x)[..|p + x| - 1] == p + x[..|x| - 1];
      TrimRightAfter(p, x[..|x| - 1]);
    } else if |x| == 0 {
      assert p + x == p;
    }
  }

  /** Stripping a line that opens with a non-blank tag `p` keeps the whole
      tag and trims only the trailing whitespace of what follows it: leading
      whitespace of `x` survives. */
  lemma StripAfterTag(p: string, x: string)
    requires p != [] && Trimmed(p)
    ensures Strip(p + x) == p + TrimRight(x)
  {
    assert TrimLeft(p + x) == p + x;
    TrimRightAfter(p, x);
  }
}
