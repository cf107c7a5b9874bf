/**
 * The regular expressions of the normaliser and JavaScript's global
 * `String.prototype.replace(/.../g, replacement)` over them.
 *
 * Every expression the normaliser uses is a string of literal characters in
 * which `\s*` may stand between two of them; a `Pattern` is such a sequence of
 * tokens. `MatchLen` is the matcher used by `ReplaceAll`; it consumes each
 * `\s*` greedily, and `MatchLenExact` proves that this yields exactly the
 * match the regular expression defines (`Matches`).
 */
module Patterns {
  import opened Wrappers
  import opened Text

  /** A literal character, or the class `\s*`. */
  datatype Token = Ch(c: char) | Ws

  /**
   * Every `\s*` is followed by a literal that is not white space, as in all
   * of the normaliser's expressions; then the length of a match is determined.
   */
  predicate WellFormed(p: seq<Token>) {
    forall i :: 0 <= i < |p| ==> FollowedWell(p, i)
  }

  /** A `\s*` at position `i` is followed by a literal that is not white space. */
  predicate FollowedWell(p: seq<Token>, i: nat)
    requires i < |p|
  {
    p[i].Ws? ==> i + 1 < |p| && p[i + 1].Ch? && !IsSpace(p[i + 1].c)
  }

  /** An expression that starts with a literal character, so that no match is empty. */
  type Pattern = p: seq<Token> | |p| > 0 && p[0].Ch? && WellFormed(p) witness [Ch('a')]

  /** The expression that matches exactly the literal text `q`. */
  function Lit(q: string): (p: seq<Token>)
    ensures |p| == |q| && forall i :: 0 <= i < |q| ==> p[i] == Ch(q[i])
  {
    seq(|q|, i requires 0 <= i < |q| => Ch(q[i]))
  }

  /**
   * The expression written `parts[0]\s*parts[1]\s*...`: literal pieces with
   * optional white space between them.
   */
  function Spaced(parts: seq<string>): (p: Pattern)
    requires |parts| > 0 && forall i :: 0 <= i < |parts| ==> parts[i] != []
    requires forall i :: 1 <= i < |parts| ==> !IsSpace(parts[i][0])
    ensures p[0] == Ch(parts[0][0])
    ensures |p| >= |parts[0]| && forall i :: 0 <= i < |parts[0]| ==> p[i] == Ch(parts[0][i])
    decreases |parts|
  {
    if |parts| == 1 then Lit(parts[0])
    else
      var rest := Spaced(parts[1..]);
      var p := Lit(parts[0]) + [Ws] + rest;
      assert rest[0] == Ch(parts[1][0]);
      assert forall i :: |parts[0]| + 1 <= i < |p| ==> p[i] == rest[i - |parts[0]| - 1];
      assert forall i :: 0 <= i < |p| ==> FollowedWell(p, i) by {
        forall i | 0 <= i < |p| ensures FollowedWell(p, i) {
          if i > |parts[0]| {
            assert FollowedWell(rest, i - |parts[0]| - 1);
          }
        }
      }
      p
  }

  /** The set of texts the expression `pat` matches (the language of the regular expression). */
  ghost predicate Matches(t: string, pat: seq<Token>)
    decreases |pat|
  {
    if pat == [] then t == []
    else match pat[0]
      case Ch(c) => |t| > 0 && t[0] == c && Matches(t[1..], pat[1..])
      case Ws => exists k :: 0 <= k <= |t| && AllSpace(t[..k]) && Matches(t[k..], pat[1..])
  }

  function Shift(o: Option<nat>, k: nat): Option<nat> {
    match o
    case Some(n) => Some(n + k)
    case None => None
  }

  /** The length of the match of `pat` at the start of `s`, if there is one; `\s*` is greedy. */
  function MatchLen(s: string, pat: seq<Token>): (r: Option<nat>)
    ensures r.Some? ==> r.value <= |s|
    ensures r.Some? && |pat| > 0 && pat[0].Ch? ==> r.value > 0
    decreases |pat|
  {
    if pat == [] then Some(0)
    else
      match pat[0]
      case Ch(c) =>
        if |s| > 0 && s[0] == c then Shift(MatchLen(s[1..], pat[1..]), 1) else None
      case Ws =>
        var k := SpaceRun(s);
        Shift(MatchLen(s[k..], pat[1..]), k)
  }

  /** Whatever `MatchLen` reports is a match of the regular expression. */
  lemma {:induction false} MatchLenSound(s: string, pat: seq<Token>)
    ensures MatchLen(s, pat).Some? ==> Matches(s[..MatchLen(s, pat).value], pat)
    decreases |pat|
  {
    if pat != [] && MatchLen(s, pat).Some? {
      var n := MatchLen(s, pat).value;
      var t := s[..n];
      if pat[0].Ch? {
        MatchLenSound(s[1..], pat[1..]);
        assert MatchLen(s[1..], pat[1..]) == Some(n - 1);
        assert t[1..] == s[1..][..n - 1];
        assert |t| > 0 && t[0] == pat[0].c && Matches(t[1..], pat[1..]);
      } else {
        var k := SpaceRun(s);
        MatchLenSound(s[k..], pat[1..]);
        assert MatchLen(s[k..], pat[1..]) == Some(n - k);
        assert t[..k] == s[..k];
        assert t[k..] == s[k..][..n - k];
        assert 0 <= k <= |t| && AllSpace(t[..k]) && Matches(t[k..], pat[1..]);
      }
    }
  }

  lemma WellFormedTail(pat: seq<Token>)
    requires pat != [] && WellFormed(pat)
    ensures WellFormed(pat[1..])
  {
    var tail := pat[1..];
    forall i | 0 <= i < |tail| ensures FollowedWell(tail, i) {
      assert FollowedWell(pat, i + 1);
    }
  }

  /** A white-space run followed by a character that is not white space is exactly the run `SpaceRun` measures. */
  lemma SpaceRunIs(s: string, k: nat)
    requires k < |s| && AllSpace(s[..k]) && !IsSpace(s[k])
    ensures SpaceRun(s) == k
  {
    assert forall i :: 0 <= i < k ==> IsSpace(s[i]) by {
      forall i | 0 <= i < k ensures IsSpace(s[i]) { assert s[..k][i] == s[i]; }
    }
    var run := SpaceRun(s);
    assert forall i :: 0 <= i < run ==> IsSpace(s[i]) by {
      forall i | 0 <= i < run ensures IsSpace(s[i]) { assert s[..run][i] == s[i]; }
    }
  }

  /** Every match of a well-formed expression is the one `MatchLen` finds. */
  lemma {:induction false} MatchLenComplete(s: string, pat: seq<Token>, n: nat)
    requires WellFormed(pat) && n <= |s| && Matches(s[..n], pat)
    ensures MatchLen(s, pat) == Some(n)
    decreases |pat|
  {
    if pat != [] {
      WellFormedTail(pat);
      if pat[0].Ch? {
        ChHead(s, pat, n);
        MatchLenComplete(s[1..], pat[1..], n - 1);
      } else {
        var k := WsHead(s, pat, n);
        MatchLenComplete(s[k..], pat[1..], n - k);
      }
    }
  }

  /** A match that starts with a literal consumes that character, then matches the rest. */
  lemma ChHead(s: string, pat: seq<Token>, n: nat)
    requires pat != [] && pat[0].Ch? && n <= |s| && Matches(s[..n], pat)
    ensures 0 < n && s[0] == pat[0].c && Matches(s[1..][..n - 1], pat[1..])
  {
    var t := s[..n];
    assert t[1..] == s[1..][..n - 1];
  }

  /** In a match of a well-formed expression, a leading `\s*` takes exactly the white-space run. */
  lemma WsHead(s: string, pat: seq<Token>, n: nat) returns (k: nat)
    requires WellFormed(pat) && pat != [] && pat[0].Ws? && n <= |s| && Matches(s[..n], pat)
    ensures k <= n && SpaceRun(s) == k && Matches(s[k..][..n - k], pat[1..])
  {
    var t := s[..n];
    k :| 0 <= k <= n && AllSpace(t[..k]) && Matches(t[k..], pat[1..]);
    assert FollowedWell(pat, 0);
    assert pat[1..][0] == pat[1];
    assert t[k..][0] == s[k];
    assert t[..k] == s[..k];
    SpaceRunIs(s, k);
    assert t[k..] == s[k..][..n - k];
  }

  /** For a well-formed expression, `MatchLen` finds a match of length `n` exactly when the regular expression matches the first `n` characters. */
  lemma MatchLenExact(s: string, pat: seq<Token>, n: nat)
    requires WellFormed(pat)
    ensures MatchLen(s, pat) == Some(n) <==> n <= |s| && Matches(s[..n], pat)
  {
    MatchLenSound(s, pat);
    if n <= |s| && Matches(s[..n], pat) {
      MatchLenComplete(s, pat, n);
    }
  }

  /** A match of a well-formed expression does not depend on what follows it. */
  lemma MatchExtends(q: string, t: string, pat: seq<Token>)
    requires WellFormed(pat) && MatchLen(q, pat) == Some(|q|) && q <= t
    ensures MatchLen(t, pat) == Some(|q|)
  {
    MatchLenSound(q, pat);
    assert q[..|q|] == t[..|q|];
    MatchLenComplete(t, pat, |q|);
  }

  /** Matching an expression that begins with the literal `q`. */
  lemma {:induction false} LitPrefixMatch(s: string, q: string, more: seq<Token>)
    ensures MatchLen(s, Lit(q) + more)
         == if q <= s then Shift(MatchLen(s[|q|..], more), |q|) else None
    decreases |q|
  {
    if q == [] {
      assert Lit(q) + more == more;
      assert s[0..] == s;
      match MatchLen(s, more) { case Some(_) => case None => }
    } else {
      var p := Lit(q) + more;
      assert p[0] == Ch(q[0]);
      assert p[1..] == Lit(q[1..]) + more;
      if |s| > 0 && s[0] == q[0] {
        LitPrefixMatch(s[1..], q[1..], more);
        assert q <= s <==> q[1..] <= s[1..];
        if q <= s {
          assert s[1..][|q| - 1..] == s[|q|..];
          match MatchLen(s[|q|..], more) { case Some(_) => case None => }
        }
      }
    }
  }

  /** A literal matches itself. */
  lemma LitMatchesItself(q: string, t: string)
    requires q <= t
    ensures MatchLen(t, Lit(q)) == Some(|q|)
  {
    LitPrefixMatch(t, q, []);
    assert Lit(q) + [] == Lit(q);
  }

  /**
   * `s.replace(/pat/g, rep)`: scanning left to right, every leftmost match is
   * replaced by `rep` and the scan resumes after it; matches never overlap.
   */
  function ReplaceAll(s: string, pat: Pattern, rep: string): string
    decreases |s|
  {
    if s == [] then []
    else
      match MatchLen(s, pat)
      case Some(n) => rep + ReplaceAll(s[n..], pat, rep)
      case None => [s[0]] + ReplaceAll(s[1..], pat, rep)
  }

  /** The leftmost position of `s` at which `pat` matches. */
  function FirstMatch(s: string, pat: Pattern): (r: Option<nat>)
    ensures r.Some? ==> r.value < |s| && MatchLen(s[r.value..], pat).Some?
    ensures r.Some? && MatchLen(s, pat).None? ==> r.value > 0
    decreases |s|
  {
    if s == [] then None
    else if MatchLen(s, pat).Some? then Some(0)
    else Shift(FirstMatch(s[1..], pat), 1)
  }

  /** With no match anywhere, the text is copied whole. */
  lemma {:induction false} ReplaceNoMatch(s: string, pat: Pattern, rep: string)
    requires FirstMatch(s, pat).None?
    ensures ReplaceAll(s, pat, rep) == s
    decreases |s|
  {
    if s != [] {
      ReplaceNoMatch(s[1..], pat, rep);
    }
  }

  /** The head of a text that no match starts is copied, and the leftmost match is searched for further on. */
  lemma SkipStep(s: string, pat: Pattern, rep: string)
    requires s != [] && MatchLen(s, pat).None?
    ensures ReplaceAll(s, pat, rep) == [s[0]] + ReplaceAll(s[1..], pat, rep)
    ensures FirstMatch(s, pat) == Shift(FirstMatch(s[1..], pat), 1)
  {
  }

  lemma FirstMatchHead(s: string, pat: Pattern, d: nat)
    requires FirstMatch(s, pat) == Some(d) && d > 0
    ensures MatchLen(s, pat).None? && FirstMatch(s[1..], pat) == Some(d - 1)
  {
  }

  /** Text before the leftmost match is copied unchanged. */
  lemma {:induction false} ReplaceCopiesPrefix(s: string, pat: Pattern, rep: string, d: nat)
    requires FirstMatch(s, pat) == Some(d)
    ensures ReplaceAll(s, pat, rep) == s[..d] + ReplaceAll(s[d..], pat, rep)
    decreases |s|
  {
    if d == 0 {
      assert s[..0] + ReplaceAll(s[0..], pat, rep) == ReplaceAll(s, pat, rep);
    } else {
      var tail := s[1..];
      FirstMatchHead(s, pat, d);
      SkipStep(s, pat, rep);
      ReplaceCopiesPrefix(tail, pat, rep, d - 1);
      assert tail[d - 1..] == s[d..];
      PrefixJoin(s, d, ReplaceAll(s[d..], pat, rep));
    }
  }

  /** Text before the leftmost match is copied, then the match is replaced. */
  lemma ReplaceSplit(s: string, pat: Pattern, rep: string, d: nat, n: nat)
    requires FirstMatch(s, pat) == Some(d) && MatchLen(s[d..], pat) == Some(n)
    ensures d + n <= |s|
    ensures ReplaceAll(s, pat, rep) == s[..d] + rep + ReplaceAll(s[d + n..], pat, rep)
  {
    ReplaceCopiesPrefix(s, pat, rep, d);
    var t := s[d..];
    MatchStep(t, pat, rep, n);
    DropDrop(s, d, n);
    AppendAssoc(s[..d], rep, ReplaceAll(s[d + n..], pat, rep));
  }

  lemma DropDrop(s: string, d: nat, n: nat)
    requires d + n <= |s|
    ensures s[d..][n..] == s[d + n..]
  {
  }

  lemma AppendAssoc(a: string, b: string, c: string)
    ensures a + (b + c) == a + b + c
  {
  }

  lemma MatchStep(s: string, pat: Pattern, rep: string, n: nat)
    requires s != [] && MatchLen(s, pat) == Some(n)
    ensures n <= |s| && ReplaceAll(s, pat, rep) == rep + ReplaceAll(s[n..], pat, rep)
  {
  }

  /**
   * The global replacement leaves no occurrence of `q` behind and creates
   * none, when `q` is itself a match of `pat` (or `s` had no `q` to begin
   * with) and the replacement cannot splice a new `q` together.
   */
  lemma {:induction false} ReplaceAbsent(s: string, pat: Pattern, rep: string, q: string)
    requires |q| > 0 && StraddleFree(q, rep)
    requires !Contains(s, q) || MatchLen(q, pat) == Some(|q|)
    ensures !Contains(ReplaceAll(s, pat, rep), q)
    decreases |s|
  {
    if s != [] {
      match MatchLen(s, pat)
      case Some(n) =>
        ContainsSuffix(s, n, q);
        ReplaceAbsent(s[n..], pat, rep, q);
        ConcatAbsent(rep, ReplaceAll(s[n..], pat, rep), q);
      case None =>
        var x := ReplaceAll(s[1..], pat, rep);
        ContainsSuffix(s, 1, q);
        ReplaceAbsent(s[1..], pat, rep, q);
        assert ([s[0]] + x)[1..] == x;
        KeptPrefixAbsent(s, pat, rep, q);
    }
  }

  /** The case of `ReplaceAbsent` in which the text starts with a character that no match covers. */
  lemma KeptPrefixAbsent(s: string, pat: Pattern, rep: string, q: string)
    requires s != [] && MatchLen(s, pat).None?
    requires |q| > 0 && StraddleFree(q, rep)
    requires !Contains(s, q) || MatchLen(q, pat) == Some(|q|)
    ensures !(q <= ReplaceAll(s, pat, rep))
  {
    if MatchLen(q, pat) == Some(|q|) && q <= s {
      MatchExtends(q, s, pat);
    }
    assert q <= s ==> Contains(s, q);
    match FirstMatch(s, pat)
    case None =>
      ReplaceNoMatch(s, pat, rep);
    case Some(d) =>
      var n := MatchLen(s[d..], pat).value;
      ReplaceSplit(s, pat, rep, d, n);
      NoStraddleAfter(s[..d], s, rep, ReplaceAll(s[d + n..], pat, rep), q);
  }

  /** A text `q` that is not a prefix of `s` cannot start a copied part of `s` and run on into the replacement. */
  lemma NoStraddleAfter(a: string, s: string, rep: string, y: string, q: string)
    requires |a| > 0 && a <= s && !(q <= s)
    requires forall d :: 1 <= d < |q| ==> !Compatible(q[d..], rep)
    ensures !(q <= a + rep + y)
  {
    var out := a + rep + y;
    assert forall i :: 0 <= i < |a| ==> out[i] == s[i];
    if q <= out {
      if |q| > |a| {
        assert out == a + (rep + y);
        assert q[|a|..] <= rep + y;
        PrefixOfConcat(q[|a|..], rep, y);
      }
    }
  }

  /** A match contains every literal character of the expression. */
  lemma {:induction false} MatchUsesChar(x: string, pat: seq<Token>, i: nat)
    requires i < |pat| && pat[i].Ch? && MatchLen(x, pat).Some?
    ensures pat[i].c in x
    decreases |pat|
  {
    if pat[0].Ch? {
      if i > 0 {
        MatchUsesChar(x[1..], pat[1..], i - 1);
      }
    } else {
      var k := SpaceRun(x);
      MatchUsesChar(x[k..], pat[1..], i - 1);
    }
  }

  /** When a literal character of the expression does not occur in the text, the replacement changes nothing. */
  lemma {:induction false} ReplaceWithoutChar(s: string, pat: Pattern, rep: string, i: nat)
    requires i < |pat| && pat[i].Ch? && pat[i].c !in s
    ensures ReplaceAll(s, pat, rep) == s
    decreases |s|
  {
    if s != [] {
      if MatchLen(s, pat).Some? {
        MatchUsesChar(s, pat, i);
      }
      ReplaceWithoutChar(s[1..], pat, rep, i);
    }
  }

  /** A match at the very start is replaced and the scan resumes after it. */
  lemma ReplaceAtStart(s: string, pat: Pattern, rep: string, n: nat)
    requires MatchLen(s, pat) == Some(n)
    ensures n <= |s| && ReplaceAll(s, pat, rep) == rep + ReplaceAll(s[n..], pat, rep)
  {
  }

  /** A prefix at none of whose positions a match starts is copied as it is. */
  lemma CopyUnmatched(a: string, b: string, pat: Pattern, rep: string)
    requires forall e :: 0 <= e < |a| ==> MatchLen(a[e..] + b, pat).None?
    ensures ReplaceAll(a + b, pat, rep) == a + ReplaceAll(b, pat, rep)
  {
    var s := a + b;
    forall e | 0 <= e < |a| ensures MatchLen(s[e..], pat).None? {
      assert s[e..] == a[e..] + b;
    }
    CopyPrefix(s, |a|, pat, rep);
    assert s[..|a|] == a && s[|a|..] == b;
  }

  /** The same, for the first `k` positions of one text. */
  lemma {:induction false} CopyPrefix(s: string, k: nat, pat: Pattern, rep: string)
    requires k <= |s| && forall e :: 0 <= e < k ==> MatchLen(s[e..], pat).None?
    ensures ReplaceAll(s, pat, rep) == s[..k] + ReplaceAll(s[k..], pat, rep)
    decreases k
  {
    if k == 0 {
      assert s[..0] + ReplaceAll(s[0..], pat, rep) == ReplaceAll(s, pat, rep);
    } else {
      var tail := s[1..];
      NoMatchShift(s, k, pat);
      CopyPrefix(tail, k - 1, pat, rep);
      assert s[0..] == s;
      SkipStep(s, pat, rep);
      assert tail[k - 1..] == s[k..];
      PrefixJoin(s, k, ReplaceAll(s[k..], pat, rep));
    }
  }

  lemma NoMatchShift(s: string, k: nat, pat: Pattern)
    requires 0 < k <= |s| && forall e :: 0 <= e < k ==> MatchLen(s[e..], pat).None?
    ensures forall e :: 0 <= e < k - 1 ==> MatchLen(s[1..][e..], pat).None?
  {
    forall e | 0 <= e < k - 1 ensures MatchLen(s[1..][e..], pat).None? {
      assert s[1..][e..] == s[e + 1..];
    }
  }

  lemma PrefixJoin(s: string, k: nat, y: string)
    requires 0 < k <= |s|
    ensures [s[0]] + (s[1..][..k - 1] + y) == s[..k] + y
  {
    assert [s[0]] + s[1..][..k - 1] == s[..k];
  }

  /** No match starts where the text differs from the expression's leading literal. */
  lemma LeadMismatch(x: string, pat: Pattern, i: nat)
    requires i < |x| && i < |pat| && forall j :: 0 <= j <= i ==> pat[j].Ch?
    requires x[i] != pat[i].c
    ensures MatchLen(x, pat).None?
  {
    if MatchLen(x, pat).Some? {
      var n := MatchLen(x, pat).value;
      MatchLenSound(x, pat);
      LeadLiteral(x[..n], pat, i);
    }
  }

  lemma {:induction false} LeadLiteral(t: string, pat: seq<Token>, i: nat)
    requires i < |pat| && forall j :: 0 <= j <= i ==> pat[j].Ch?
    requires Matches(t, pat)
    ensures i < |t| && t[i] == pat[i].c
    decreases i
  {
    if i > 0 {
      LeadLiteral(t[1..], pat[1..], i - 1);
    }
  }

  /** A text in which the literal `q` does not occur is left as it is by replacing `q`. */
  lemma {:induction false} ReplaceAbsentLiteral(s: string, q: string, rep: string)
    requires q != [] && !Contains(s, q)
    ensures ReplaceAll(s, Spaced([q]), rep) == s
    decreases |s|
  {
    if s != [] {
      assert Lit(q) + [] == Lit(q);
      LitPrefixMatch(s, q, []);
      ReplaceAbsentLiteral(s[1..], q, rep);
    }
  }

  /** The text `parts[0] + gaps[0] + parts[1] + ... + parts[n] + rest`. */
  function Joined(parts: seq<string>, gaps: seq<string>, rest: string): (r: string)
    requires |parts| > 0 && |gaps| == |parts| - 1
    ensures |r| >= |rest| && parts[0] <= r
    decreases |parts|
  {
    if |parts| == 1 then parts[0] + rest
    else parts[0] + (gaps[0] + Joined(parts[1..], gaps[1..], rest))
  }

  /**
   * `parts[0]\s*parts[1]...` matches the pieces joined by any runs of white
   * space, whatever follows them.
   */
  lemma {:induction false} SpacedMatch(parts: seq<string>, gaps: seq<string>, rest: string)
    requires |parts| > 0 && forall i :: 0 <= i < |parts| ==> parts[i] != []
    requires forall i :: 1 <= i < |parts| ==> !IsSpace(parts[i][0])
    requires |gaps| == |parts| - 1 && forall i :: 0 <= i < |gaps| ==> AllSpace(gaps[i])
    ensures MatchLen(Joined(parts, gaps, rest), Spaced(parts))
         == Some(|Joined(parts, gaps, rest)| - |rest|)
    decreases |parts|
  {
    var p0 := parts[0];
    var text := Joined(parts, gaps, rest);
    if |parts| == 1 {
      assert Lit(p0) + [] == Lit(p0);
      LitPrefixMatch(text, p0, []);
      assert text[|p0|..] == rest;
    } else {
      var tail := Joined(parts[1..], gaps[1..], rest);
      var more := Spaced(parts[1..]);
      var u := gaps[0] + tail;
      SpacedUnfold(parts);
      LitPrefixMatch(text, p0, [Ws] + more);
      assert text[|p0|..] == u;
      SpacedMatch(parts[1..], gaps[1..], rest);
      GapStep(gaps[0], tail, more);
    }
  }

  lemma SpacedUnfold(parts: seq<string>)
    requires |parts| > 1 && forall i :: 0 <= i < |parts| ==> parts[i] != []
    requires forall i :: 1 <= i < |parts| ==> !IsSpace(parts[i][0])
    ensures Spaced(parts) == Lit(parts[0]) + ([Ws] + Spaced(parts[1..]))
  {
    var more := Spaced(parts[1..]);
    assert Lit(parts[0]) + [Ws] + more == Lit(parts[0]) + ([Ws] + more);
  }

  /** A white-space run before a character that is not white space is what `\s*` consumes. */
  lemma GapStep(w: string, x: string, more: seq<Token>)
    requires AllSpace(w) && x != [] && !IsSpace(x[0])
    ensures MatchLen(w + x, [Ws] + more) == Shift(MatchLen(x, more), |w|)
  {
    var u := w + x;
    assert u[..|w|] == w && u[|w|..] == x;
    SpaceRunIs(u, |w|);
    assert ([Ws] + more)[1..] == more;
  }

  /** Replacing the expression `parts[0]\s*parts[1]...` in a text that starts with a match of it. */
  lemma SpacedRewrite(parts: seq<string>, gaps: seq<string>, rest: string, rep: string)
    requires |parts| > 0 && forall i :: 0 <= i < |parts| ==> parts[i] != []
    requires forall i :: 1 <= i < |parts| ==> !IsSpace(parts[i][0])
    requires |gaps| == |parts| - 1 && forall i :: 0 <= i < |gaps| ==> AllSpace(gaps[i])
    ensures ReplaceAll(Joined(parts, gaps, rest), Spaced(parts), rep)
         == rep + ReplaceAll(rest, Spaced(parts), rep)
  {
    var m := Joined(parts, gaps, rest);
    SpacedMatch(parts, gaps, rest);
    JoinedEndsWith(parts, gaps, rest);
    ReplaceAtStart(m, Spaced(parts), rep, |m| - |rest|);
  }

  lemma {:induction false} JoinedEndsWith(parts: seq<string>, gaps: seq<string>, rest: string)
    requires |parts| > 0 && |gaps| == |parts| - 1
    ensures Joined(parts, gaps, rest)[|Joined(parts, gaps, rest)| - |rest|..] == rest
    decreases |parts|
  {
    if |parts| > 1 {
      JoinedEndsWith(parts[1..], gaps[1..], rest);
    }
  }
}
