/**
 * The pieces of Python's `str` behaviour that the wake-word matcher and the
 * silence test rely on: `lower()`, `strip()`, `startswith()` and the `\w` / `\b`
 * classes of the `re` module.
 */
module PyText {

  /** `c.isspace()`: the characters `str.strip()` removes when given no argument. */
  predicate IsSpace(c: char) {
    || c == ' '
    || ('\t' <= c <= '\r')
    || ('\U{1C}' <= c <= '\U{1F}')
    || c == '\U{85}' || c == '\U{A0}' || c == '\U{1680}'
    || ('\U{2000}' <= c <= '\U{200A}')
    || c == '\U{2028}' || c == '\U{2029}' || c == '\U{202F}' || c == '\U{205F}' || c == '\U{3000}'
  }

  predicate IsUpper(c: char) {
    'A' <= c <= 'Z'
  }

  /** Lower-case mapping of one character (ASCII letters only). */
  function LowerChar(c: char): (r: char)
    ensures !IsUpper(r)
    ensures IsSpace(r) <==> IsSpace(c)
    ensures IsWordChar(r) <==> IsWordChar(c)
    ensures !IsUpper(c) ==> r == c
  {
    if IsUpper(c) then (c as int + 32) as char else c
  }

  /** `s.lower()`: every character mapped, length kept. */
  function Lower(s: string): (r: string)
    ensures |r| == |s|
  {
    seq(|s|, i requires 0 <= i < |s| => LowerChar(s[i]))
  }

  /** No upper-case letter anywhere in `s`. */
  predicate NoUpper(s: string) {
    forall i :: 0 <= i < |s| ==> !IsUpper(s[i])
  }

  predicate AllSpace(s: string) {
    forall i :: 0 <= i < |s| ==> IsSpace(s[i])
  }

  /** Neither end of `s` is whitespace: what `strip()` guarantees of its result. */
  predicate IsStripped(s: string) {
    s == [] || (!IsSpace(s[0]) && !IsSpace(s[|s| - 1]))
  }

  /** `s.lstrip()`: what is left after dropping the leading whitespace. */
  function TrimStart(s: string): (r: string)
    ensures |r| <= |s|
  {
    if s != [] && IsSpace(s[0]) then TrimStart(s[1..]) else s
  }

  /** `s.rstrip()`: what is left after dropping the trailing whitespace. */
  function TrimEnd(s: string): (r: string)
    ensures |r| <= |s|
  {
    if s != [] && IsSpace(s[|s| - 1]) then TrimEnd(s[..|s| - 1]) else s
  }

  /** `s.strip()`. */
  function Strip(s: string): (r: string)
    ensures |r| <= |s|
  {
    TrimEnd(TrimStart(s))
  }

  /** `lstrip()` removes a whitespace prefix and stops at a non-space character. */
  lemma {:induction false} TrimStartShape(s: string)
    ensures var r := TrimStart(s);
      r == s[|s| - |r|..] && AllSpace(s[..|s| - |r|]) && (r == [] || !IsSpace(r[0]))
  {
    if s != [] && IsSpace(s[0]) {
      TrimStartShape(s[1..]);
    }
  }

  /** `rstrip()` removes a whitespace suffix and stops at a non-space character. */
  lemma {:induction false} TrimEndShape(s: string)
    ensures var r := TrimEnd(s);
      r == s[..|r|] && AllSpace(s[|r|..]) && (r == [] || !IsSpace(r[|r| - 1]))
  {
    if s != [] && IsSpace(s[|s| - 1]) {
      var s' := s[..|s| - 1];
      TrimEndShape(s');
      assert s[|TrimEnd(s')|..] == s'[|TrimEnd(s')|..] + [s[|s| - 1]];
    }
  }

  /** `strip()` returns a stripped slice of `s` with only whitespace on either side of it. */
  lemma StripBounds(s: string) returns (a: nat, b: nat)
    ensures a <= b <= |s| && Strip(s) == s[a..b]
    ensures AllSpace(s[..a]) && AllSpace(s[b..]) && IsStripped(Strip(s))
  {
    var t := TrimStart(s);
    var r := TrimEnd(t);
    TrimStartShape(s);
    TrimEndShape(t);
    a, b := |s| - |t|, |s| - |t| + |r|;
    assert r == s[a..b];
    assert s[b..] == t[|r|..];
    assert r != [] ==> r[0] == t[0];
  }

  lemma AllSpaceAppend(x: string, y: string)
    requires AllSpace(x) && AllSpace(y)
    ensures AllSpace(x + y)
  {
    assert forall k :: 0 <= k < |x + y| ==> (x + y)[k] == if k < |x| then x[k] else y[k - |x|];
  }

  /** `s.startswith(p)`. */
  predicate StartsWith(s: string, p: string) {
    |p| <= |s| && s[..|p|] == p
  }

  /** A character of the regex class `\w` (ASCII letters, digits and underscore). */
  predicate IsWordChar(c: char) {
    ('a' <= c <= 'z') || ('A' <= c <= 'Z') || ('0' <= c <= '9') || c == '_'
  }

  /**
   * The regex assertion `\b` at position `i` of `s`: exactly one of the
   * characters on either side of `i` is a word character (outside `s` counts
   * as a non-word character).
   */
  predicate Boundary(s: string, i: nat)
    requires i <= |s|
  {
    (i > 0 && IsWordChar(s[i - 1])) != (i < |s| && IsWordChar(s[i]))
  }

  /** `lstrip()` drops exactly a whitespace prefix that stops before a non-space character. */
  lemma {:induction false} TrimStartPadded(p: string, t: string)
    requires AllSpace(p)
    requires t == [] || !IsSpace(t[0])
    ensures TrimStart(p + t) == t
  {
    if p != [] {
      assert (p + t)[1..] == p[1..] + t;
      TrimStartPadded(p[1..], t);
    } else {
      assert p + t == t;
    }
  }

  /** `rstrip()` drops exactly a whitespace suffix that follows a non-space character. */
  lemma {:induction false} TrimEndPadded(t: string, q: string)
    requires AllSpace(q)
    requires t == [] || !IsSpace(t[|t| - 1])
    ensures TrimEnd(t + q) == t
  {
    if q != [] {
      assert (t + q)[..|t + q| - 1] == t + q[..|q| - 1];
      TrimEndPadded(t, q[..|q| - 1]);
    } else {
      assert t + q == t;
    }
  }

  /**
   * `strip()` is determined by its contract: whatever stripped text is padded
   * with whitespace on both sides, stripping gives it back.
   */
  lemma StripPadded(p: string, r: string, q: string)
    requires AllSpace(p) && AllSpace(q) && IsStripped(r)
    ensures Strip(p + r + q) == r
  {
    if r == [] {
      assert p + r + q == p + q + [];
      TrimStartPadded(p + q, []);
    } else {
      assert p + r + q == p + (r + q);
      TrimStartPadded(p, r + q);
      TrimEndPadded(r, q);
    }
  }

  lemma LowerAppend(x: string, y: string)
    ensures Lower(x + y) == Lower(x) + Lower(y)
  {
  }

  lemma LowerKeepsSpace(s: string)
    requires AllSpace(s)
    ensures AllSpace(Lower(s))
  {
  }

  lemma LowerKeepsStripped(s: string)
    requires IsStripped(s)
    ensures IsStripped(Lower(s))
  {
  }

  /** Lower-casing and stripping commute: `s.lower().strip() == s.strip().lower()`. */
  lemma StripLower(s: string)
    ensures Strip(Lower(s)) == Lower(Strip(s))
  {
    var r := Strip(s);
    var a, b := StripBounds(s);
    var p, q := s[..a], s[b..];
    assert s == p + r + q;
    LowerAppend(p + r, q);
    LowerAppend(p, r);
    LowerKeepsSpace(p);
    LowerKeepsSpace(q);
    LowerKeepsStripped(r);
    StripPadded(Lower(p), Lower(r), Lower(q));
  }
}
