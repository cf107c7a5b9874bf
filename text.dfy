/**
 * Strings as sequences of characters, and the three string operations the
 * normaliser relies on: the white-space class shared by JavaScript's `\s`
 * and `String.prototype.trim`, `trim` itself, and `includes`.
 */
module Text {

  /**
   * The characters JavaScript classifies as white space or line terminators;
   * both the regular-expression class `\s` and `trim()` use exactly this set.
   */
  predicate IsSpace(c: char) {
    || c == ' ' || c == '\t' || c == '\n' || c == '\r'
    || c == '\U{000B}' || c == '\U{000C}' || c == '\U{00A0}' || c == '\U{1680}'
    || ('\U{2000}' <= c <= '\U{200A}')
    || c == '\U{2028}' || c == '\U{2029}' || c == '\U{202F}' || c == '\U{205F}'
    || c == '\U{3000}' || c == '\U{FEFF}'
  }

  predicate AllSpace(s: string) {
    forall i :: 0 <= i < |s| ==> IsSpace(s[i])
  }

  /** Length of the white-space run that starts `s`. */
  function SpaceRun(s: string): (n: nat)
    ensures n <= |s| && AllSpace(s[..n])
    ensures n < |s| ==> !IsSpace(s[n])
  {
    if |s| > 0 && IsSpace(s[0]) then 1 + SpaceRun(s[1..]) else 0
  }

  /** All of `s[i..j]` is white space. */
  predicate SpaceBetween(s: string, i: nat, j: nat)
    requires i <= j <= |s|
  {
    forall k :: i <= k < j ==> IsSpace(s[k])
  }

  /** The first position from `i` on that does not hold white space (or `|s|`). */
  function SkipSpace(s: string, i: nat): (a: nat)
    requires i <= |s|
    ensures i <= a <= |s| && SpaceBetween(s, i, a)
    ensures a < |s| ==> !IsSpace(s[a])
    decreases |s| - i
  {
    if i < |s| && IsSpace(s[i]) then SkipSpace(s, i + 1) else i
  }

  /** The end of `s[a..j]` once its trailing white space is cut off. */
  function SkipSpaceBack(s: string, a: nat, j: nat): (b: nat)
    requires a <= j <= |s|
    ensures a <= b <= j && SpaceBetween(s, b, j)
    ensures a < b ==> !IsSpace(s[b - 1])
    decreases j - a
  {
    if a < j && IsSpace(s[j - 1]) then SkipSpaceBack(s, a, j - 1) else j
  }

  /**
   * `s.trim()`: drops the leading and the trailing white space; what is
   * left neither starts nor ends with white space.
   */
  function Trim(s: string): (r: string)
    ensures exists a, b :: 0 <= a <= b <= |s| && r == s[a..b]
                           && SpaceBetween(s, 0, a) && SpaceBetween(s, b, |s|)
    ensures r == [] || (!IsSpace(r[0]) && !IsSpace(r[|r| - 1]))
  {
    var a := SkipSpace(s, 0);
    var b := SkipSpaceBack(s, a, |s|);
    s[a..b]
  }

  /** A string that neither starts nor ends with white space is its own trim. */
  lemma TrimFixed(s: string)
    requires s == [] || (!IsSpace(s[0]) && !IsSpace(s[|s| - 1]))
    ensures Trim(s) == s
  {
    if s != [] {
      assert SkipSpace(s, 0) == 0;
      assert SkipSpaceBack(s, 0, |s|) == |s|;
    }
  }

  /** Trimming twice trims no more than trimming once. */
  lemma TrimIdempotent(s: string)
    ensures Trim(Trim(s)) == Trim(s)
  {
    TrimFixed(Trim(s));
  }

  /** `s.includes(p)`: `p` occurs in `s` at some position. */
  function Contains(s: string, p: string): bool
    decreases |s|
  {
    p <= s || (|s| > 0 && Contains(s[1..], p))
  }

  /** `Contains` means: `p` is a prefix of some suffix of `s`. */
  lemma {:induction false} ContainsAt(s: string, p: string, i: nat)
    requires i <= |s| && p <= s[i..]
    ensures Contains(s, p)
    decreases i
  {
    if i > 0 {
      assert s[1..][i - 1..] == s[i..];
      ContainsAt(s[1..], p, i - 1);
    }
  }

  /** Every occurrence of `p` in `s` sits at some position of `s`. */
  lemma {:induction false} ContainsWitness(s: string, p: string) returns (i: nat)
    requires Contains(s, p)
    ensures i <= |s| && p <= s[i..]
    decreases |s|
  {
    if p <= s {
      i := 0;
    } else {
      var j := ContainsWitness(s[1..], p);
      assert s[1..][j..] == s[j + 1..];
      i := j + 1;
    }
  }

  /** An occurrence in a suffix is an occurrence in the whole string. */
  lemma ContainsSuffix(s: string, i: nat, p: string)
    requires i <= |s|
    ensures Contains(s[i..], p) ==> Contains(s, p)
  {
    if Contains(s[i..], p) {
      var j := ContainsWitness(s[i..], p);
      assert s[i..][j..] == s[i + j..];
      ContainsAt(s, p, i + j);
    }
  }

  /** An occurrence in a prefix is an occurrence in the whole string. */
  lemma ContainsPrefix(s: string, i: nat, p: string)
    requires i <= |s|
    ensures Contains(s[..i], p) ==> Contains(s, p)
  {
    if Contains(s[..i], p) {
      var j := ContainsWitness(s[..i], p);
      assert s[..i][j..] <= s[j..];
      ContainsAt(s, p, j);
    }
  }

  /** An occurrence of `u + p` holds an occurrence of `p`. */
  lemma ContainsTail(s: string, u: string, p: string)
    requires Contains(s, u + p)
    ensures Contains(s, p)
  {
    var i := ContainsWitness(s, u + p);
    assert p <= s[i + |u|..];
    ContainsAt(s, p, i + |u|);
  }

  /** Every character of an occurring `p` is a character of `s`. */
  lemma ContainsChars(s: string, p: string)
    ensures Contains(s, p) ==> forall k :: 0 <= k < |p| ==> p[k] in s
  {
    if Contains(s, p) {
      var i := ContainsWitness(s, p);
      forall k | 0 <= k < |p| ensures p[k] in s {
        assert s[i + k] == p[k];
      }
    }
  }

  /** A string that lacks one of the characters of `p` does not contain `p`. */
  lemma MissingChar(s: string, p: string, c: char)
    requires c in p && c !in s
    ensures !Contains(s, p)
  {
    ContainsChars(s, p);
  }

  /** One of the two strings is a prefix of the other. */
  predicate Compatible(a: string, b: string) {
    a <= b || b <= a
  }

  /** A prefix of `a + b` is comparable with `a`. */
  lemma PrefixOfConcat(x: string, a: string, b: string)
    requires x <= a + b
    ensures Compatible(x, a)
  {
    if |x| <= |a| {
      assert x == (a + b)[..|x|] == a[..|x|];
    } else {
      assert a == (a + b)[..|a|] == x[..|a|];
    }
  }

  /** Two strings that differ at a common index are incomparable. */
  lemma IncompatibleAt(a: string, b: string, i: nat)
    requires i < |a| && i < |b| && a[i] != b[i]
    ensures !Compatible(a, b)
  {
  }

  /** No occurrence of `q` can begin inside `a`, whatever follows `a`. */
  predicate NoStartIn(a: string, q: string) {
    forall e :: 0 <= e < |a| ==> !Compatible(q, a[e..])
  }

  /**
   * Splicing `r` into a text cannot create an occurrence of `q` that straddles
   * or begins inside `r`: no proper suffix of `q` is comparable with `r`, and
   * no occurrence of `q` can begin inside `r`.
   */
  predicate StraddleFree(q: string, r: string) {
    && (forall d :: 1 <= d < |q| ==> !Compatible(q[d..], r))
    && NoStartIn(r, q)
  }

  /** Gluing a text that cannot start `q` in front of a `q`-free text gives a `q`-free text. */
  lemma {:induction false} ConcatAbsent(a: string, b: string, q: string)
    requires |q| > 0 && NoStartIn(a, q) && !Contains(b, q)
    ensures !Contains(a + b, q)
    decreases |a|
  {
    if a != [] {
      assert !Compatible(q, a[0..]);
      if q <= a + b { PrefixOfConcat(q, a, b); }
      assert (a + b)[1..] == a[1..] + b;
      assert forall e :: 0 <= e < |a[1..]| ==> a[1..][e..] == a[e + 1..];
      ConcatAbsent(a[1..], b, q);
    } else {
      assert a + b == b;
    }
  }

  /** Sufficient condition for the first half of `StraddleFree`, checked one character at a time. */
  lemma BorderFreeByChar(q: string, r: string, lo: nat, hi: nat)
    requires 0 < |r| && lo <= hi <= |q| && r[0] !in q[lo..hi]
    ensures forall d :: lo <= d < hi ==> !Compatible(q[d..], r)
  {
    forall d | lo <= d < hi ensures !Compatible(q[d..], r) {
      assert q[d] == q[lo..hi][d - lo];
      IncompatibleAt(q[d..], r, 0);
    }
  }

  /** Sufficient condition for the second half of `StraddleFree`, checked one character at a time. */
  lemma StartFreeByChar(q: string, r: string, lo: nat, hi: nat)
    requires 0 < |q| && lo <= hi <= |r| && q[0] !in r[lo..hi]
    ensures forall e :: lo <= e < hi ==> !Compatible(q, r[e..])
  {
    forall e | lo <= e < hi ensures !Compatible(q, r[e..]) {
      assert r[e] == r[lo..hi][e - lo];
      IncompatibleAt(q, r[e..], 0);
    }
  }
}
