/**
 * Worked cases of the script normaliser: why the order of the rules
 * matters, the whole chain of rules over a call followed by ordinary
 * text, and a family of scripts (`fill_fill_opacity=` followed by
 * ordinary text) on which a second pass of the normaliser still changes
 * what the first pass returned.
 */
module ManimCases {
  import opened Wrappers
  import opened Text
  import opened Patterns
  import opened ManimFix

  // ---------------------------------------------------------------------
  // Stepping through the chain

  /** Running the rules from position `k` starts with rule `k`. */
  lemma Passes(s: string, rules: seq<Correction>, k: nat, out: string)
    requires k < |rules| && Apply(s, rules[k]) == out
    ensures ApplyRules(s, rules[k..]) == ApplyRules(out, rules[k + 1..])
  {
    assert rules[k..][0] == rules[k];
    assert rules[k..][1..] == rules[k + 1..];
  }

  /** A rule whose expression uses a character absent from the text changes nothing. */
  lemma RuleSkips(s: string, r: Correction, i: nat)
    requires i < |r.parts[0]| && r.parts[0][i] !in s
    ensures Apply(s, r) == s
  {
    ReplaceWithoutChar(s, RulePattern(r), r.replacement, i);
  }

  /** Rules `lo` to `hi` that each leave the text alone can be dropped from the chain. */
  lemma {:induction false} QuietRange(s: string, rules: seq<Correction>, lo: nat, hi: nat)
    requires lo <= hi <= |rules|
    requires forall j :: lo <= j < hi ==> Apply(s, rules[j]) == s
    ensures ApplyRules(s, rules[lo..]) == ApplyRules(s, rules[hi..])
    decreases hi - lo
  {
    if lo < hi {
      Passes(s, rules, lo, s);
      QuietRange(s, rules, lo + 1, hi);
    }
  }

  lemma RulesDone(s: string, rules: seq<Correction>)
    ensures ApplyRules(s, rules[|rules|..]) == s
  {
    assert rules[|rules|..] == [];
  }

  lemma QuietUpTo(s: string)
    requires 'S' !in s && 'T' !in s && 'M' !in s
    ensures forall j :: 1 <= j < 5 ==> Apply(s, Corrections[j]) == s
  {
    forall j | 1 <= j < 5 ensures Apply(s, Corrections[j]) == s {
      RuleSkips(s, Corrections[j], 0);
    }
  }

  lemma QuietFrom(s: string)
    requires '\'' !in s && '"' !in s && 'b' !in s && 'D' !in s
    ensures forall j :: 5 <= j < |Corrections| ==> Apply(s, Corrections[j]) == s
  {
    forall j | 5 <= j < |Corrections| ensures Apply(s, Corrections[j]) == s {
      if j == 7 || j == 9 {
        RuleSkips(s, Corrections[j], 2);
      } else {
        RuleSkips(s, Corrections[j], 0);
      }
    }
  }

  /**
   * A text without `S`, `T`, `M`, quotes, `b` or `D` passes all rules
   * but the first unchanged.
   */
  lemma QuietAfterFirst(s: string)
    requires 'S' !in s && 'T' !in s && 'M' !in s
    requires '\'' !in s && '"' !in s && 'b' !in s && 'D' !in s
    ensures ApplyRules(s, Corrections[1..]) == s
  {
    QuietUpTo(s);
    QuietFrom(s);
    QuietRange(s, Corrections, 1, |Corrections|);
    RulesDone(s, Corrections);
  }

  /** Text in front that lacks the expression's first character is copied as it is. */
  lemma PrefixWithoutLead(a: string, b: string, pat: Pattern, rep: string)
    requires pat[0].c !in a
    ensures ReplaceAll(a + b, pat, rep) == a + ReplaceAll(b, pat, rep)
  {
    forall e | 0 <= e < |a| ensures MatchLen(a[e..] + b, pat).None? {
      assert (a[e..] + b)[0] == a[e];
      LeadMismatch(a[e..] + b, pat, 0);
    }
    CopyUnmatched(a, b, pat, rep);
  }

  // ---------------------------------------------------------------------
  // The order of the `MathTex(` and `Tex(` rules

  lemma MathTexRewritten(r: Correction)
    requires r.parts == ["MathTex("] && r.replacement == "Text("
    ensures Apply("MathTex(", r) == "Text("
  {
    LiteralRuleMatches(r);
    ReplaceAtStart("MathTex(", RulePattern(r), "Text(", 8);
  }

  /** `Tex(` does not occur in `Text(`. */
  lemma TextSurvivesTex(r: Correction)
    requires r.parts == ["Tex("]
    ensures Apply("Text(", r) == "Text("
  {
    var a, q := "Text(", "Tex(";
    assert a[0..] == a;
    IncompatibleAt(q, a[0..], 3);
    StartFreeByChar(q, a, 1, |a|);
    ConcatAbsent(a, [], q);
    assert a + [] == a;
    ReplaceAbsentLiteral(a, q, r.replacement);
  }

  /** `Tex(` matches inside `MathTex(`, leaving the `Math` in front. */
  lemma TexInsideMathTex(r: Correction)
    requires r.parts == ["Tex("] && r.replacement == "Text("
    ensures Apply("MathTex(", r) == "MathText("
  {
    var pat := RulePattern(r);
    assert pat[0].c == 'T';
    PrefixWithoutLead("Math", "Tex(", pat, "Text(");
    assert "Math" + "Tex(" == "MathTex(";
    LiteralRuleMatches(r);
    ReplaceAtStart("Tex(", pat, "Text(", 4);
  }

  /** `MathTex(` does not occur in `MathText(`. */
  lemma MathTextSurvives(r: Correction)
    requires r.parts == ["MathTex("]
    ensures Apply("MathText(", r) == "MathText("
  {
    var a, q := "MathText(", "MathTex(";
    assert a[0..] == a;
    IncompatibleAt(q, a[0..], 7);
    StartFreeByChar(q, a, 1, |a|);
    ConcatAbsent(a, [], q);
    assert a + [] == a;
    ReplaceAbsentLiteral(a, q, r.replacement);
  }

  /**
   * Run in the order of the chain, the two rules turn `MathTex(` into
   * `Text(`; the other way round they would leave `MathText(`.
   */
  lemma MathTexBeforeTex()
    ensures Apply(Apply("MathTex(", MathTex), Tex) == "Text("
    ensures Apply(Apply("MathTex(", Tex), MathTex) == "MathText("
  {
    MathTexRewritten(MathTex);
    TextSurvivesTex(Tex);
    TexInsideMathTex(Tex);
    MathTextSurvives(MathTex);
  }

  // ---------------------------------------------------------------------
  // The whole chain of rules

  /**
   * A tail of ordinary text: it does not end in white space and holds
   * none of the characters the rules and the import check look for.
   */
  predicate Plain(w: string) {
    && w != [] && !IsSpace(w[|w| - 1])
    && '`' !in w && 'f' !in w && 'm' !in w && 'o' !in w && 'l' !in w
    && 'S' !in w && 'T' !in w && 'M' !in w && 'b' !in w && 'D' !in w
    && '\'' !in w && '"' !in w
  }

  lemma MathTexQuietHead(w: string)
    requires Plain(w)
    ensures forall j :: 0 <= j < 3 ==> Apply("MathTex(" + w, Corrections[j]) == "MathTex(" + w
  {
    var s := "MathTex(" + w;
    forall j | 0 <= j < 3 ensures Apply(s, Corrections[j]) == s {
      if j == 2 {
        RuleSkips(s, Corrections[j], 5);
      } else {
        RuleSkips(s, Corrections[j], 0);
      }
    }
  }

  lemma MathTexLeads(r: Correction, w: string)
    requires r.parts == ["MathTex("] && r.replacement == "Text(" && Plain(w)
    ensures Apply("MathTex(" + w, r) == "Text(" + w
  {
    var s, pat := "MathTex(" + w, RulePattern(r);
    LiteralRuleMatches(r);
    MatchExtends("MathTex(", s, pat);
    ReplaceAtStart(s, pat, "Text(", 8);
    assert s[8..] == w;
    RuleSkips(w, r, 0);
  }

  lemma TexSpares(r: Correction, w: string)
    requires r.parts == ["Tex("] && Plain(w)
    ensures Apply("Text(" + w, r) == "Text(" + w
  {
    var a, q := "Text(", "Tex(";
    assert a[0..] == a;
    IncompatibleAt(q, a[0..], 3);
    StartFreeByChar(q, a, 1, |a|);
    MissingChar(w, q, 'T');
    ConcatAbsent(a, w, q);
    ReplaceAbsentLiteral(a + w, q, r.replacement);
  }

  lemma TextQuietTail(w: string)
    requires Plain(w)
    ensures forall j :: 4 <= j < |Corrections| ==> Apply("Text(" + w, Corrections[j]) == "Text(" + w
  {
    var s := "Text(" + w;
    forall j | 4 <= j < |Corrections| ensures Apply(s, Corrections[j]) == s {
      if j == 4 {
        TexSpares(Corrections[j], w);
      } else {
        RuleSkips(s, Corrections[j], 0);
      }
    }
  }

  lemma MathTexChain(w: string)
    requires Plain(w)
    ensures ApplyRules("MathTex(" + w, Corrections) == "Text(" + w
  {
    var s, t := "MathTex(" + w, "Text(" + w;
    assert Corrections[0..] == Corrections;
    MathTexQuietHead(w);
    QuietRange(s, Corrections, 0, 3);
    MathTexLeads(Corrections[3], w);
    Passes(s, Corrections, 3, t);
    TextQuietTail(w);
    QuietRange(t, Corrections, 4, |Corrections|);
    RulesDone(t, Corrections);
  }

  // ---------------------------------------------------------------------
  // A second pass

  /** The first rule rewrites a leading `fill_opacity=` and leaves a plain tail alone. */
  lemma FillOpacityLeads(r: Correction, w: string)
    requires r.parts == ["fill_opacity", "="] && r.replacement == "opacity=" && Plain(w)
    ensures Apply("fill_opacity=" + w, r) == "opacity=" + w
  {
    var parts := r.parts;
    assert parts[1..] == ["="];
    assert Joined(parts, [""], w) == "fill_opacity=" + w;
    SpacedRewrite(parts, [""], w, r.replacement);
    RuleSkips(w, r, 0);
  }

  /** No match of the first rule starts where the text does not open with `f` or has no `o` sixth. */
  lemma FillOpacityMisses(r: Correction, x: string)
    requires r.parts == ["fill_opacity", "="] && |x| > 5 && (x[0] != 'f' || x[5] != 'o')
    ensures MatchLen(x, RulePattern(r)).None?
  {
    var pat := RulePattern(r);
    assert pat[0] == Ch('f') && pat[5] == Ch('o');
    if x[0] != 'f' {
      LeadMismatch(x, pat, 0);
    } else {
      assert forall j :: 0 <= j <= 5 ==> pat[j].Ch?;
      LeadMismatch(x, pat, 5);
    }
  }

  /** Regrouping a literal prefix: `a + (b + c)` is `ab + c` when `ab` is `a + b`. */
  lemma Regroup(a: string, b: string, c: string, ab: string)
    requires a + b == ab
    ensures a + (b + c) == ab + c
  {
  }

  /** No match of the first rule starts inside a leading `fill_` that another `fill_opacity=` follows. */
  lemma FillPrefixCopied(r: Correction, w: string)
    requires r.parts == ["fill_opacity", "="] && r.replacement == "opacity=" && Plain(w)
    ensures Apply("fill_" + ("fill_opacity=" + w), r) == "fill_" + Apply("fill_opacity=" + w, r)
  {
    var a, b := "fill_", "fill_opacity=" + w;
    forall e | 0 <= e < |a| ensures MatchLen(a[e..] + b, RulePattern(r)).None? {
      var x := a[e..] + b;
      assert e == 0 ==> x[5] == b[0];
      assert e > 0 ==> x[0] == a[e];
      FillOpacityMisses(r, x);
    }
    CopyUnmatched(a, b, RulePattern(r), r.replacement);
  }

  /** The first rule copies a leading `fill_`, where no match starts, and rewrites what follows. */
  lemma FillFillLeads(r: Correction, w: string)
    requires r.parts == ["fill_opacity", "="] && r.replacement == "opacity=" && Plain(w)
    ensures Apply("fill_fill_opacity=" + w, r) == "fill_opacity=" + w
  {
    FillPrefixCopied(r, w);
    FillOpacityLeads(r, w);
    Regroup("fill_", "fill_opacity=", w, "fill_fill_opacity=");
    Regroup("fill_", "opacity=", w, "fill_opacity=");
  }

  /** None of the characters that start the later rules. */
  predicate QuietChars(t: string) {
    'S' !in t && 'T' !in t && 'M' !in t && '\'' !in t && '"' !in t && 'b' !in t && 'D' !in t
  }

  /** Rules after the first leave a plain tail behind a prefix without their leading characters. */
  lemma QuietBehind(p: string, w: string)
    requires QuietChars(p) && Plain(w)
    ensures ApplyRules(p + w, Corrections[1..]) == p + w
  {
    assert QuietChars(p + w);
    QuietAfterFirst(p + w);
  }

  /** A character none of the later rules starts with. */
  predicate Calm(c: char) {
    c != 'S' && c != 'T' && c != 'M' && c != '\'' && c != '"' && c != 'b' && c != 'D'
  }

  lemma QuietByChars(t: string)
    requires forall i :: 0 <= i < |t| ==> Calm(t[i])
    ensures QuietChars(t)
  {
  }

  lemma LeftoversQuiet()
    ensures QuietChars("opacity=") && QuietChars("fill_opacity=")
  {
    QuietByChars("opacity=");
    QuietByChars("fill_opacity=");
  }

  /** On `fill_opacity=` + w only the first rule acts. */
  lemma FillOpacityChain(w: string)
    requires Plain(w)
    ensures ApplyRules("fill_opacity=" + w, Corrections) == "opacity=" + w
  {
    assert Corrections[0..] == Corrections;
    FillOpacityLeads(Corrections[0], w);
    Passes("fill_opacity=" + w, Corrections, 0, "opacity=" + w);
    LeftoversQuiet();
    QuietBehind("opacity=", w);
  }

  /** On `fill_fill_opacity=` + w the chain removes one `fill_` only. */
  lemma FillFillChain(w: string)
    requires Plain(w)
    ensures ApplyRules("fill_fill_opacity=" + w, Corrections) == "fill_opacity=" + w
  {
    assert Corrections[0..] == Corrections;
    FillFillLeads(Corrections[0], w);
    Passes("fill_fill_opacity=" + w, Corrections, 0, "fill_opacity=" + w);
    LeftoversQuiet();
    QuietBehind("fill_opacity=", w);
  }

  /** A first pass over `fill_fill_opacity=` + w leaves `fill_opacity=` + w behind the header. */
  lemma FirstPass(w: string)
    requires Plain(w)
    ensures FixManimScript("fill_fill_opacity=" + w) == Header + ("fill_opacity=" + w)
  {
    var s := "fill_fill_opacity=" + w;
    assert s[|s| - 1] == w[|w| - 1];
    MissingChar(s, ImportLine, 'm');
    FixAddsHeader(s);
    FillFillChain(w);
  }

  /** A second pass rewrites what the first left behind. */
  lemma SecondPass(w: string)
    requires Plain(w)
    ensures FixManimScript(Header + ("fill_opacity=" + w)) == Header + ("opacity=" + w)
  {
    var t := "fill_opacity=" + w;
    var o := Header + t;
    assert o[|o| - 1] == w[|w| - 1];
    assert ImportLine <= o[0..];
    ContainsAt(o, ImportLine, 0);
    FixKeepsImport(o);
    HeaderKept(t);
    FillOpacityChain(w);
  }

  /**
   * The normaliser is not idempotent: for every plain tail w (such as
   * "1"), a second pass over the output for `fill_fill_opacity=` + w
   * changes it.
   */
  lemma NotIdempotent(w: string)
    requires Plain(w)
    ensures FixManimScript(FixManimScript("fill_fill_opacity=" + w)) != FixManimScript("fill_fill_opacity=" + w)
  {
    FirstPass(w);
    SecondPass(w);
    assert |Header + ("opacity=" + w)| != |Header + ("fill_opacity=" + w)|;
  }
}
