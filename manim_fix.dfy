/**
 * The auto-correction pass that the chat route applies to every generated
 * Manim script before it is queued for rendering (`fixManimScript` in
 * app/api/chat/route.ts).
 *
 * The pass removes Markdown code fences, trims, makes sure the script
 * imports Manim, and then applies ten global substitutions in a fixed
 * order. Each substitution is JavaScript's `replace(/.../g, ...)`, modelled
 * by `Patterns.ReplaceAll`.
 */
module ManimFix {
  import opened Wrappers
  import opened Text
  import opened Patterns

  /**
   * One `.replace(/pattern/g, replacement)` of the chain; the expression is
   * `parts[0]\s*parts[1]...` (see `Patterns.Spaced`).
   */
  datatype Rule = Rule(parts: seq<string>, replacement: string)

  predicate WellFormedRule(r: Rule) {
    && |r.parts| > 0
    && (forall i :: 0 <= i < |r.parts| ==> r.parts[i] != [])
    && (forall i :: 1 <= i < |r.parts| ==> !IsSpace(r.parts[i][0]))
  }

  /** A rule whose expression is well formed. */
  type Correction = r: Rule | WellFormedRule(r) witness Rule(["a"], "")

  function RulePattern(r: Correction): Pattern {
    Spaced(r.parts)
  }

  const Fence: string := "```"
  const ImportLine: string := "from manim import"
  const Header: string := "from manim import *\n\n"

  const FillOpacity: Correction := Rule(["fill_opacity", "="], "opacity=")
  const ShowCreation: Correction := Rule(["ShowCreation("], "Create(")
  const TextMobject: Correction := Rule(["TextMobject("], "Text(")
  const MathTex: Correction := Rule(["MathTex("], "Text(")
  const Tex: Correction := Rule(["Tex("], "Text(")
  const SingleQuotedRoot: Correction := Rule(["'root'", ":"], "'root_vertex':")
  const DoubleQuotedRoot: Correction := Rule(["\"root\"", ":"], "\"root_vertex\":")
  const LabelsTrue: Correction := Rule(["labels=True"], "labels=False")
  const DecimalNumber: Correction := Rule(["DecimalNumber("], "Text(str(")
  const SpacedLabelsTrue: Correction := Rule(["labels", "=", "True"], "labels=False")

  /** The substitutions, in the order the chain applies them. */
  const Corrections: seq<Correction> := [
    FillOpacity, ShowCreation, TextMobject, MathTex, Tex,
    SingleQuotedRoot, DoubleQuotedRoot, LabelsTrue, DecimalNumber, SpacedLabelsTrue
  ]

  /** Every "```python" is removed, then every remaining "```". */
  function StripFences(s: string): (r: string)
    ensures !Contains(r, Fence)
  {
    var once := ReplaceAll(s, Spaced(["```python"]), "");
    FenceFree(once);
    ReplaceAll(once, Spaced([Fence]), "")
  }

  /** A script without back-ticks has no fence to strip. */
  lemma NoBackTicks(s: string)
    requires '`' !in s
    ensures StripFences(s) == s
  {
    ReplaceWithoutChar(s, Spaced(["```python"]), "", 0);
    ReplaceWithoutChar(s, Spaced([Fence]), "", 0);
  }

  /** The header is put in front of a script that does not import Manim. */
  function EnsureImport(t: string): (r: string)
    ensures Contains(r, ImportLine)
    ensures Contains(t, ImportLine) ==> r == t
    ensures !Contains(t, ImportLine) ==> r == Header + t
  {
    if Contains(t, ImportLine) then t
    else
      assert ImportLine <= Header + t;
      ContainsAt(Header + t, ImportLine, 0);
      Header + t
  }

  /** The substitutions applied one after the other, each to the whole text. */
  function ApplyRules(s: string, rules: seq<Correction>): string
    decreases |rules|
  {
    if rules == [] then s
    else ApplyRules(Apply(s, rules[0]), rules[1..])
  }

  function Apply(s: string, r: Correction): string {
    ReplaceAll(s, RulePattern(r), r.replacement)
  }

  /** The code fence and the calls and keyword arguments the pass rewrites away. */
  const Eliminated: seq<string> :=
    [Fence, "ShowCreation(", "TextMobject(", "MathTex(", "Tex(", "DecimalNumber(", "labels=True"]

  /** What the pass guarantees of its output: none of `Eliminated` occurs in it. */
  predicate Normalised(r: string) {
    forall p :: p in Eliminated ==> !Contains(r, p)
  }

  /** The whole pass. */
  function FixManimScript(script: string): (r: string)
    ensures Normalised(r)
  {
    var t := EnsureImport(Trim(StripFences(script)));
    PreparedFenceFree(script);
    FencesStayOut(t);
    CallsEliminated(t);
    ApplyRules(t, Corrections)
  }

  // ---------------------------------------------------------------------
  // Fences

  /** With no "```" at the start, the first character is copied. */
  lemma FenceStep(t: string)
    requires t != [] && !(Fence <= t)
    ensures ReplaceAll(t, Spaced([Fence]), "") == [t[0]] + ReplaceAll(t[1..], Spaced([Fence]), "")
  {
    assert Lit(Fence) + [] == Lit(Fence);
    LitPrefixMatch(t, Fence, []);
  }

  /** Removing every "```" leaves none behind, even where removals bring backticks together. */
  lemma {:induction false} FenceFree(t: string)
    ensures !Contains(ReplaceAll(t, Spaced([Fence]), ""), Fence)
    decreases |t|
  {
    var f := Spaced([Fence]);
    if t != [] {
      if Fence <= t {
        assert f == Lit(Fence);
        LitMatchesItself(Fence, t);
        ReplaceAtStart(t, f, "", 3);
        assert "" + ReplaceAll(t[3..], f, "") == ReplaceAll(t[3..], f, "");
        FenceFree(t[3..]);
      } else {
        FenceStep(t);
        FenceFree(t[1..]);
        var out := ReplaceAll(t, f, "");
        assert out[1..] == ReplaceAll(t[1..], f, "");
        NoFenceAtHead(t);
      }
    }
  }

  /** The case of `FenceFree` for the first position of the output. */
  lemma NoFenceAtHead(t: string)
    requires t != [] && !(Fence <= t)
    ensures !(Fence <= ReplaceAll(t, Spaced([Fence]), ""))
  {
    var f := Spaced([Fence]);
    FenceStep(t);
    if t[0] == '`' && |t| > 1 {
      var u := t[1..];
      if u[0] != '`' {
        FenceStep(u);
      } else {
        assert |u| == 1 || u[1] != '`';
        FenceStep(u);
        if |u| > 1 {
          FenceStep(u[1..]);
        }
      }
    }
  }

  /** Trimming cuts a piece out of the text, so it brings in no new occurrence. */
  lemma TrimKeepsAbsent(s: string, q: string)
    ensures !Contains(s, q) ==> !Contains(Trim(s), q)
  {
    var a, b :| 0 <= a <= b <= |s| && Trim(s) == s[a..b];
    WindowKeepsAbsent(s, a, b, q);
  }

  /** A piece cut out of a text holds no occurrence the text lacks. */
  lemma WindowKeepsAbsent(s: string, a: nat, b: nat, q: string)
    requires a <= b <= |s|
    ensures !Contains(s, q) ==> !Contains(s[a..b], q)
  {
    assert s[a..][..b - a] == s[a..b];
    ContainsPrefix(s[a..], b - a, q);
    ContainsSuffix(s, a, q);
  }

  /** Neither trimming nor the header brings a fence back. */
  lemma PreparedFenceFree(script: string)
    ensures !Contains(EnsureImport(Trim(StripFences(script))), Fence)
  {
    var u := StripFences(script);
    var t := Trim(u);
    TrimKeepsAbsent(u, Fence);
    if !Contains(t, ImportLine) {
      HeaderFenceFree();
      ConcatAbsent(Header, t, Fence);
    }
  }

  lemma HeaderFenceFree()
    ensures NoStartIn(Header, Fence)
  {
    StartFreeByChar(Fence, Header, 0, |Header|);
    assert Header[0..|Header|] == Header;
  }

  // ---------------------------------------------------------------------
  // The chain of substitutions

  lemma {:induction false} ApplyRulesAppend(s: string, a: seq<Correction>, b: seq<Correction>)
    ensures ApplyRules(s, a + b) == ApplyRules(ApplyRules(s, a), b)
    decreases |a|
  {
    if a == [] {
      assert a + b == b;
    } else {
      assert (a + b)[1..] == a[1..] + b;
      ApplyRulesAppend(Apply(s, a[0]), a[1..], b);
    }
  }

  /** A text without `q` stays without it when no replacement can splice `q` together. */
  lemma {:induction false} ApplyRulesKeepsAbsent(s: string, rules: seq<Correction>, q: string)
    requires |q| > 0 && !Contains(s, q)
    requires forall r :: r in rules ==> StraddleFree(q, r.replacement)
    ensures !Contains(ApplyRules(s, rules), q)
    decreases |rules|
  {
    if rules != [] {
      ReplaceAbsent(s, RulePattern(rules[0]), rules[0].replacement, q);
      ApplyRulesKeepsAbsent(Apply(s, rules[0]), rules[1..], q);
    }
  }

  /**
   * A rule whose expression matches `q` itself removes every `q`, and none
   * comes back when no later replacement can splice one together.
   */
  lemma RuleEliminates(s: string, before: seq<Correction>, r: Correction, after: seq<Correction>, q: string)
    requires |q| > 0 && MatchLen(q, RulePattern(r)) == Some(|q|)
    requires StraddleFree(q, r.replacement)
    requires forall x :: x in after ==> StraddleFree(q, x.replacement)
    ensures !Contains(ApplyRules(s, before + [r] + after), q)
  {
    var m := ApplyRules(s, before);
    ApplyRulesAppend(s, before + [r], after);
    ApplyRulesAppend(s, before, [r]);
    ReplaceAbsent(m, RulePattern(r), r.replacement, q);
    var n := Apply(m, r);
    assert ApplyRules(m, [r]) == ApplyRules(n, []);
    ApplyRulesKeepsAbsent(n, after, q);
  }

  /** A rule that changes nothing in `s`, for every rule of the list, leaves `s` as it is. */
  lemma {:induction false} ApplyRulesUnchanged(s: string, rules: seq<Correction>)
    requires forall j :: 0 <= j < |rules| ==> Apply(s, rules[j]) == s
    ensures ApplyRules(s, rules) == s
    decreases |rules|
  {
    if rules != [] {
      assert forall j :: 0 <= j < |rules[1..]| ==> rules[1..][j] == rules[j + 1];
      ApplyRulesUnchanged(s, rules[1..]);
    }
  }

  /** Sufficient character conditions for `StraddleFree`. */
  lemma StraddleFreeByChars(q: string, r: string)
    requires |q| > 0 && |r| > 0 && r[0] !in q[1..] && q[0] !in r
    ensures StraddleFree(q, r)
  {
    BorderFreeByChar(q, r, 1, |q|);
    StartFreeByChar(q, r, 0, |r|);
  }

  /** No replacement of the chain contains a backtick. */
  lemma FencesStayOut(t: string)
    requires !Contains(t, Fence)
    ensures !Contains(ApplyRules(t, Corrections), Fence)
  {
    FenceVsCalls();
    FenceVsArguments();
    ApplyRulesKeepsAbsent(t, Corrections, Fence);
  }

  lemma FenceVsCalls()
    ensures StraddleFree(Fence, "opacity=") && StraddleFree(Fence, "Create(")
    ensures StraddleFree(Fence, "Text(") && StraddleFree(Fence, "Text(str(")
  {
    StraddleFreeByChars(Fence, "opacity=");
    StraddleFreeByChars(Fence, "Create(");
    StraddleFreeByChars(Fence, "Text(");
    StraddleFreeByChars(Fence, "Text(str(");
  }

  lemma FenceVsArguments()
    ensures StraddleFree(Fence, "'root_vertex':") && StraddleFree(Fence, "\"root_vertex\":")
    ensures StraddleFree(Fence, "labels=False")
  {
    StraddleFreeByChars(Fence, "'root_vertex':");
    StraddleFreeByChars(Fence, "\"root_vertex\":");
    StraddleFreeByChars(Fence, "labels=False");
  }

  /** The calls that the chain rewrites do not survive it, whatever the text. */
  lemma CallsEliminated(t: string)
    ensures !Contains(ApplyRules(t, Corrections), "ShowCreation(")
    ensures !Contains(ApplyRules(t, Corrections), "TextMobject(")
    ensures !Contains(ApplyRules(t, Corrections), "MathTex(")
    ensures !Contains(ApplyRules(t, Corrections), "Tex(")
    ensures !Contains(ApplyRules(t, Corrections), "DecimalNumber(")
    ensures !Contains(ApplyRules(t, Corrections), "labels=True")
  {
    ShowCreationEliminated(t);
    TextMobjectEliminated(t);
    TexEliminated(t);
    DecimalNumberEliminated(t);
    LabelsTrueEliminated(t);
    var out := ApplyRules(t, Corrections);
    if Contains(out, "MathTex(") {
      assert "Math" + "Tex(" == "MathTex(";
      ContainsTail(out, "Math", "Tex(");
    }
  }

  /**
   * Rule `k` removes every `q` and no later replacement can splice one
   * together, so the chain leaves no `q`.
   */
  lemma EliminatedAt(t: string, rules: seq<Correction>, k: nat, q: string)
    requires k < |rules| && |q| > 0 && MatchLen(q, RulePattern(rules[k])) == Some(|q|)
    requires forall j :: k <= j < |rules| ==> StraddleFree(q, rules[j].replacement)
    ensures !Contains(ApplyRules(t, rules), q)
  {
    var after := rules[k + 1..];
    assert rules == rules[..k] + [rules[k]] + after;
    forall x | x in after ensures StraddleFree(q, x.replacement) {
      var j :| 0 <= j < |after| && after[j] == x;
      assert rules[k + 1 + j] == x;
    }
    RuleEliminates(t, rules[..k], rules[k], after, q);
  }

  /** A literal rule's expression matches its own text. */
  lemma LiteralRuleMatches(r: Correction)
    requires |r.parts| == 1
    ensures MatchLen(r.parts[0], RulePattern(r)) == Some(|r.parts[0]|)
  {
    assert RulePattern(r) == Lit(r.parts[0]);
    LitMatchesItself(r.parts[0], r.parts[0]);
  }

  lemma ShowCreationEliminated(t: string)
    ensures !Contains(ApplyRules(t, Corrections), "ShowCreation(")
  {
    var q := "ShowCreation(";
    ShowCreationStraddleFree();
    assert Corrections[1].parts == [q];
    LiteralRuleMatches(Corrections[1]);
    EliminatedAt(t, Corrections, 1, q);
  }

  /** No replacement from rule 1 on can splice "ShowCreation(" together. */
  lemma ShowCreationStraddleFree()
    ensures forall j :: 1 <= j < |Corrections| ==> StraddleFree("ShowCreation(", Corrections[j].replacement)
  {
    ShowCreationStraddleFreeUpTo();
    ShowCreationStraddleFreeFrom();
  }

  lemma ShowCreationStraddleFreeUpTo()
    ensures forall j :: 1 <= j < 5 ==> StraddleFree("ShowCreation(", Corrections[j].replacement)
  {
    forall j | 1 <= j < 5 ensures StraddleFree("ShowCreation(", Corrections[j].replacement) {
      if j == 1 {
        ShowCreationVsCreate();
      } else {
        assert Corrections[j].replacement == "Text(";
        CallsVsTextsByChars("ShowCreation(", "Text(");
      }
    }
  }

  lemma ShowCreationStraddleFreeFrom()
    ensures forall j :: 5 <= j < |Corrections| ==> StraddleFree("ShowCreation(", Corrections[j].replacement)
  {
    forall j | 5 <= j < |Corrections| ensures StraddleFree("ShowCreation(", Corrections[j].replacement) {
      if j == 5 {
        CallVsKeys("ShowCreation(", "'root_vertex':");
      } else if j == 6 {
        CallVsKeys("ShowCreation(", "\"root_vertex\":");
      } else if j == 7 {
        CallVsKeys("ShowCreation(", "labels=False");
      } else if j == 8 {
        CallsVsTextsByChars("ShowCreation(", "Text(str(");
      } else {
        CallVsKeys("ShowCreation(", "labels=False");
      }
    }
  }

  /**
   * Neither "ShowCreation(" nor "DecimalNumber(" can be spliced together
   * around the "Text(" replacements: their characters rule it out.
   */
  lemma CallsVsTextsByChars(q: string, r: string)
    requires q in {"ShowCreation(", "DecimalNumber("}
    requires r in {"Text(", "Text(str("}
    ensures StraddleFree(q, r)
  {
    StraddleFreeByChars(q, r);
  }

  lemma ShowCreationVsCreate()
    ensures StraddleFree("ShowCreation(", "Create(")
  {
    var q := "ShowCreation(";
    var r := "Create(";
    BorderFreeByChar(q, r, 1, 4);
    IncompatibleAt(q[4..], r, 5);
    BorderFreeByChar(q, r, 5, |q|);
    StartFreeByChar(q, r, 0, |r|);
  }

  lemma TextMobjectEliminated(t: string)
    ensures !Contains(ApplyRules(t, Corrections), "TextMobject(")
  {
    var q := "TextMobject(";
    TextMobjectStraddleFree();
    assert Corrections[2].parts == [q];
    LiteralRuleMatches(Corrections[2]);
    EliminatedAt(t, Corrections, 2, q);
  }

  /** No replacement from rule 2 on can splice "TextMobject(" together. */
  lemma TextMobjectStraddleFree()
    ensures forall j :: 2 <= j < |Corrections| ==> StraddleFree("TextMobject(", Corrections[j].replacement)
  {
    TextMobjectStraddleFreeUpTo();
    TextMobjectStraddleFreeFrom();
  }

  lemma TextMobjectStraddleFreeUpTo()
    ensures forall j :: 2 <= j < 5 ==> StraddleFree("TextMobject(", Corrections[j].replacement)
  {
    CallVsTexts("TextMobject(", "Text(");
    assert forall j :: 2 <= j < 5 ==> Corrections[j].replacement == "Text(";
  }

  lemma TextMobjectStraddleFreeFrom()
    ensures forall j :: 5 <= j < |Corrections| ==> StraddleFree("TextMobject(", Corrections[j].replacement)
  {
    forall j | 5 <= j < |Corrections| ensures StraddleFree("TextMobject(", Corrections[j].replacement) {
      if j == 8 {
        CallVsTexts("TextMobject(", "Text(str(");
      } else {
        CallVsKeys("TextMobject(", Corrections[j].replacement);
      }
    }
  }

  lemma TexEliminated(t: string)
    ensures !Contains(ApplyRules(t, Corrections), "Tex(")
  {
    var q := "Tex(";
    TexStraddleFree();
    assert Corrections[4].parts == [q];
    LiteralRuleMatches(Corrections[4]);
    EliminatedAt(t, Corrections, 4, q);
  }

  /** No replacement from rule 4 on can splice "Tex(" together. */
  lemma TexStraddleFree()
    ensures forall j :: 4 <= j < |Corrections| ==> StraddleFree("Tex(", Corrections[j].replacement)
  {
    forall j | 4 <= j < |Corrections| ensures StraddleFree("Tex(", Corrections[j].replacement) {
      if j == 4 {
        CallVsTexts("Tex(", "Text(");
      } else if j == 5 {
        CallVsKeys("Tex(", "'root_vertex':");
      } else if j == 6 {
        CallVsKeys("Tex(", "\"root_vertex\":");
      } else if j == 7 {
        CallVsKeys("Tex(", "labels=False");
      } else if j == 8 {
        CallVsTexts("Tex(", "Text(str(");
      } else {
        CallVsKeys("Tex(", "labels=False");
      }
    }
  }

  lemma DecimalNumberEliminated(t: string)
    ensures !Contains(ApplyRules(t, Corrections), "DecimalNumber(")
  {
    var q := "DecimalNumber(";
    DecimalNumberStraddleFree();
    assert Corrections[8].parts == [q];
    LiteralRuleMatches(Corrections[8]);
    EliminatedAt(t, Corrections, 8, q);
  }

  /** No replacement from rule 8 on can splice "DecimalNumber(" together. */
  lemma DecimalNumberStraddleFree()
    ensures forall j :: 8 <= j < |Corrections| ==> StraddleFree("DecimalNumber(", Corrections[j].replacement)
  {
    forall j | 8 <= j < |Corrections| ensures StraddleFree("DecimalNumber(", Corrections[j].replacement) {
      if j == 8 {
        CallsVsTextsByChars("DecimalNumber(", "Text(str(");
      } else {
        DecimalNumberVsLabels();
      }
    }
  }

  lemma DecimalNumberVsLabels()
    ensures StraddleFree("DecimalNumber(", "labels=False")
  {
    var q := "DecimalNumber(";
    var r := "labels=False";
    BorderFreeByChar(q, r, 1, 6);
    IncompatibleAt(q[6..], r, 1);
    BorderFreeByChar(q, r, 7, |q|);
    StartFreeByChar(q, r, 0, |r|);
  }

  lemma LabelsTrueEliminated(t: string)
    ensures !Contains(ApplyRules(t, Corrections), "labels=True")
  {
    var q := "labels=True";
    LabelsTrueStraddleFree();
    assert Corrections[7].parts == [q];
    LiteralRuleMatches(Corrections[7]);
    EliminatedAt(t, Corrections, 7, q);
  }

  /** No replacement from rule 7 on can splice "labels=True" together. */
  lemma LabelsTrueStraddleFree()
    ensures forall j :: 7 <= j < |Corrections| ==> StraddleFree("labels=True", Corrections[j].replacement)
  {
    forall j | 7 <= j < |Corrections| ensures StraddleFree("labels=True", Corrections[j].replacement) {
      if j == 7 {
        LabelsStraddleFree();
      } else if j == 8 {
        LabelsTrueVsTextStr();
      } else {
        LabelsStraddleFree();
      }
    }
  }

  lemma LabelsTrueVsTextStr()
    ensures StraddleFree("labels=True", "Text(str(")
  {
    var q := "labels=True";
    var r := "Text(str(";
    BorderFreeByChar(q, r, 1, 7);
    IncompatibleAt(q[7..], r, 1);
    BorderFreeByChar(q, r, 8, |q|);
    StartFreeByChar(q, r, 0, |r|);
  }

  /** "labels=True" cannot be spliced together around "labels=False". */
  lemma LabelsStraddleFree()
    ensures StraddleFree("labels=True", "labels=False")
  {
    LabelsBorderFree();
    LabelsStartFree();
  }

  /** No proper suffix of "labels=True" is comparable with "labels=False". */
  lemma LabelsBorderFree()
    ensures forall d :: 1 <= d < |"labels=True"| ==> !Compatible("labels=True"[d..], "labels=False")
  {
    var q := "labels=True";
    var r := "labels=False";
    BorderFreeByChar(q, r, 1, 4);
    IncompatibleAt(q[4..], r, 1);
    BorderFreeByChar(q, r, 5, |q|);
  }

  /** No occurrence of "labels=True" begins inside "labels=False". */
  lemma LabelsStartFree()
    ensures NoStartIn("labels=False", "labels=True")
  {
    var q := "labels=True";
    var r := "labels=False";
    IncompatibleAt(q, r[0..], 7);
    StartFreeByChar(q, r, 1, 4);
    IncompatibleAt(q, r[4..], 1);
    StartFreeByChar(q, r, 5, 9);
    IncompatibleAt(q, r[9..], 1);
    StartFreeByChar(q, r, 10, |r|);
  }

  /**
   * A call name that starts with `S` or `T` and holds no quote and no `l`
   * cannot be spliced together around the key replacements.
   */
  lemma CallVsKeys(q: string, r: string)
    requires |q| > 0 && (q[0] == 'S' || q[0] == 'T') && '\'' !in q && '"' !in q && 'l' !in q
    requires r in {"'root_vertex':", "\"root_vertex\":", "labels=False"}
    ensures StraddleFree(q, r)
  {
    forall k | 0 <= k < |q| - 1 ensures q[1..][k] != r[0] {
      assert q[1..][k] == q[k + 1];
    }
    StraddleFreeByChars(q, r);
  }

  /** Neither "TextMobject(" nor "Tex(" can be spliced together around the "Text(" replacements. */
  lemma CallVsTexts(q: string, r: string)
    requires q in {"TextMobject(", "Tex("}
    requires r in {"Text(", "Text(str("}
    ensures StraddleFree(q, r)
  {
    if q == "Tex(" {
      TextLikeStraddleFree(q, r, 3);
    } else {
      TextLikeStraddleFree(q, r, 4);
    }
  }

  /** A call name starting with "Tex" against a replacement starting with "Text(". */
  lemma TextLikeStraddleFree(q: string, r: string, i: nat)
    requires |q| > i && |r| > i && q[0] == r[0] && q[i] != r[i]
    requires r[0] !in q[1..] && q[0] !in r[1..]
    ensures StraddleFree(q, r)
  {
    BorderFreeByChar(q, r, 1, |q|);
    IncompatibleAt(q, r[0..], i);
    StartFreeByChar(q, r, 1, |r|);
  }

  // ---------------------------------------------------------------------
  // The header

  /**
   * No match of the rule can start inside the header: the expression's
   * first character does not occur in it after the first position, and the
   * first two characters differ from the header's.
   */
  predicate HeaderSafe(r: Correction) {
    var lead := r.parts[0];
    && lead[0] !in Header[1..]
    && (Header[0] != lead[0] || (|lead| > 1 && Header[1] != lead[1]))
  }

  lemma HeaderInert(t: string, r: Correction)
    requires HeaderSafe(r)
    ensures Apply(Header + t, r) == Header + Apply(t, r)
  {
    var pat := RulePattern(r);
    var lead := r.parts[0];
    assert forall i :: 1 <= i < |Header| ==> Header[1..][i - 1] == Header[i];
    forall e | 0 <= e < |Header| ensures MatchLen(Header[e..] + t, pat).None? {
      var x := Header[e..] + t;
      assert x[0] == Header[e];
      if Header[e] != lead[0] {
        LeadMismatch(x, pat, 0);
      } else {
        assert x[1] == Header[1];
        LeadMismatch(x, pat, 1);
      }
    }
    CopyUnmatched(Header, t, pat, r.replacement);
  }

  lemma {:induction false} ApplyRulesHeader(t: string, rules: seq<Correction>)
    requires forall j :: 0 <= j < |rules| ==> HeaderSafe(rules[j])
    ensures ApplyRules(Header + t, rules) == Header + ApplyRules(t, rules)
    decreases |rules|
  {
    if rules != [] {
      HeaderInert(t, rules[0]);
      assert forall j :: 0 <= j < |rules[1..]| ==> rules[1..][j] == rules[j + 1];
      ApplyRulesHeader(Apply(t, rules[0]), rules[1..]);
    }
  }

  /** Holds when the expression starts with a character the header lacks. */
  lemma HeaderSafeByLead(r: Correction, c: char)
    requires r.parts[0][0] == c && c !in Header
    ensures HeaderSafe(r)
  {
    assert forall i :: 0 <= i < |Header| - 1 ==> Header[1..][i] == Header[i + 1];
  }

  lemma FillOpacityHeaderSafe(r: Correction)
    requires r.parts[0] == "fill_opacity"
    ensures HeaderSafe(r)
  {
    assert forall i :: 0 <= i < |Header| - 1 ==> Header[1..][i] == Header[i + 1];
  }

  lemma CorrectionsHeaderSafe()
    ensures forall j :: 0 <= j < |Corrections| ==> HeaderSafe(Corrections[j])
  {
    HeaderSafeUpTo();
    HeaderSafeFrom();
  }

  lemma HeaderSafeUpTo()
    ensures forall j :: 0 <= j < 5 ==> HeaderSafe(Corrections[j])
  {
    forall j | 0 <= j < 5 ensures HeaderSafe(Corrections[j]) {
      if j == 0 {
        FillOpacityHeaderSafe(Corrections[j]);
      } else if j == 1 {
        HeaderSafeByLead(Corrections[j], 'S');
      } else if j == 3 {
        HeaderSafeByLead(Corrections[j], 'M');
      } else {
        HeaderSafeByLead(Corrections[j], 'T');
      }
    }
  }

  lemma HeaderSafeFrom()
    ensures forall j :: 5 <= j < |Corrections| ==> HeaderSafe(Corrections[j])
  {
    forall j | 5 <= j < |Corrections| ensures HeaderSafe(Corrections[j]) {
      if j == 5 {
        HeaderSafeByLead(Corrections[j], '\'');
      } else if j == 6 {
        HeaderSafeByLead(Corrections[j], '"');
      } else if j == 8 {
        HeaderSafeByLead(Corrections[j], 'D');
      } else {
        HeaderSafeByLead(Corrections[j], 'l');
      }
    }
  }

  /** The chain leaves the header alone, so the output begins with it. */
  lemma HeaderKept(t: string)
    ensures ApplyRules(Header + t, Corrections) == Header + ApplyRules(t, Corrections)
  {
    CorrectionsHeaderSafe();
    ApplyRulesHeader(t, Corrections);
  }

  /**
   * When the fence-free, trimmed script does not import Manim, the result
   * is the header followed by that script after the substitutions;
   * otherwise no header is added.
   */
  lemma HeaderAdded(script: string)
    ensures var t := Trim(StripFences(script));
      && (!Contains(t, ImportLine) ==> FixManimScript(script) == Header + ApplyRules(t, Corrections))
      && (Contains(t, ImportLine) ==> FixManimScript(script) == ApplyRules(t, Corrections))
  {
    HeaderKept(Trim(StripFences(script)));
  }

  /**
   * A script with no back-ticks and no surrounding white space that does
   * not import Manim comes out as the header followed by the substitutions
   * applied to the script itself.
   */
  lemma FixAddsHeader(s: string)
    requires '`' !in s && s != [] && !IsSpace(s[0]) && !IsSpace(s[|s| - 1])
    requires !Contains(s, ImportLine)
    ensures FixManimScript(s) == Header + ApplyRules(s, Corrections)
  {
    NoBackTicks(s);
    TrimFixed(s);
    HeaderAdded(s);
  }

  /** The same script, when it already imports Manim, only goes through the substitutions. */
  lemma FixKeepsImport(s: string)
    requires '`' !in s && s != [] && !IsSpace(s[0]) && !IsSpace(s[|s| - 1])
    requires Contains(s, ImportLine)
    ensures FixManimScript(s) == ApplyRules(s, Corrections)
  {
    NoBackTicks(s);
    TrimFixed(s);
    HeaderAdded(s);
  }

  // ---------------------------------------------------------------------
  // What single rules rewrite

  /** `fill_opacity\s*=` becomes `opacity=` whatever white space stands before the `=`. */
  lemma FillOpacityRewritten(w: string, rest: string)
    requires AllSpace(w)
    ensures Apply("fill_opacity" + (w + ("=" + rest)), FillOpacity)
         == "opacity=" + Apply(rest, FillOpacity)
  {
    var parts := ["fill_opacity", "="];
    assert Joined(parts, [w], rest) == "fill_opacity" + (w + ("=" + rest));
    SpacedRewrite(parts, [w], rest, "opacity=");
  }

  /** `'root'\s*:` and `"root"\s*:` become the `root_vertex` key, each keeping its quotes. */
  lemma RootKeyRewritten(w: string, rest: string)
    requires AllSpace(w)
    ensures Apply("'root'" + (w + (":" + rest)), SingleQuotedRoot)
         == "'root_vertex':" + Apply(rest, SingleQuotedRoot)
    ensures Apply("\"root\"" + (w + (":" + rest)), DoubleQuotedRoot)
         == "\"root_vertex\":" + Apply(rest, DoubleQuotedRoot)
  {
    var single := ["'root'", ":"];
    assert Joined(single, [w], rest) == "'root'" + (w + (":" + rest));
    SpacedRewrite(single, [w], rest, "'root_vertex':");
    var double := ["\"root\"", ":"];
    assert Joined(double, [w], rest) == "\"root\"" + (w + (":" + rest));
    SpacedRewrite(double, [w], rest, "\"root_vertex\":");
  }

  /** `labels\s*=\s*True` becomes `labels=False` with any white space around the `=`. */
  lemma SpacedLabelsRewritten(w1: string, w2: string, rest: string)
    requires AllSpace(w1) && AllSpace(w2)
    ensures Apply("labels" + (w1 + ("=" + (w2 + ("True" + rest)))), SpacedLabelsTrue)
         == "labels=False" + Apply(rest, SpacedLabelsTrue)
  {
    var parts := ["labels", "=", "True"];
    assert parts[1..] == ["=", "True"] && parts[1..][1..] == ["True"];
    assert Joined(parts, [w1, w2], rest) == "labels" + (w1 + ("=" + (w2 + ("True" + rest))));
    SpacedRewrite(parts, [w1, w2], rest, "labels=False");
  }
}
