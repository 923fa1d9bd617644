/**
 * The prompt generator: it cuts the section of one phase out of a Markdown
 * prompt template and fills it with the titles of an extracted article
 * outline — one prompt per H2 for phases 1 and 3, one per H3 for phase 2, the
 * bare template for phases 4 to 6, and for phase 4 a text rendering of the
 * whole outline (the blueprint).
 *
 * The template is the text the generator read once when it was created; it is
 * passed to every operation and never changes. The outline is the extraction
 * result of the report parser.
 */
module PromptGenerator {
  import opened Wrappers
  import opened Text
  import opened Outline

  // The phase headings looked up in the template.
  const Phase1Name := "phase1（FACT_ソース集め）"
  const Phase2Name := "phase2（FACT_アウトプット）"
  const Phase3Name := "phase3（Experience_アウトプット）"
  const Phase4Name := "phase4（記事執筆）"
  const Phase5Name := "phase5（画像生成）"
  const Phase6Name := "phase6（まとめ）"

  // The placeholders substituted in the phase sections.
  const Phase1Placeholder := "[ここにH2または記事の主要テーマを入力]"
  const Phase2Placeholder := "[ここにH3を入力]"
  const Phase3H2Placeholder := "[ここにH2を入力]"
  const Phase3ListPlaceholder := "[ここにH3のリストをすべて貼り付け]"

  /** A prompt made for one H2 (phases 1 and 3); `h2Index` is the 1-based position of the H2 in the outline. */
  datatype H2Prompt = H2Prompt(phase: string, h2Index: nat, h2: string, prompt: string)

  /** A prompt made for one H3 (phase 2); `h3Index` is the 1-based position of the H3 below its H2. */
  datatype H3Prompt = H3Prompt(phase: string, h2Index: nat, h3Index: nat, h2: string, h3: string, prompt: string)

  /** The single prompt of phases 4 to 6; only phase 4 carries a blueprint. */
  datatype TemplatePrompt = TemplatePrompt(phase: string, prompt: string, blueprint: Option<string>)

  /** The result of generate_all: one entry for each of the six phases. */
  datatype AllPrompts = AllPrompts(
    phase1: seq<H2Prompt>,
    phase2: seq<H3Prompt>,
    phase3: seq<H2Prompt>,
    phase4: Option<TemplatePrompt>,
    phase5: Option<TemplatePrompt>,
    phase6: Option<TemplatePrompt>)

  // ---------------------------------------------------------------------------
  // Phase sections of the template.

  /**
   * extract_phase: the first "## <name>" heading, the rest of its line, and the
   * text after that line up to the next "\n## " or the end of the template,
   * stripped. Without the heading, or without a line break after it, there is
   * no section.
   */
  function ExtractPhase(template: string, name: string): (r: Option<string>)
    ensures IndexOfFrom(template, "## " + name, 0).None? ==> r.None?
    ensures r.Some? ==> IsStripped(r.value)
  {
    match RawSection(template, name)
    case None => None
    case Some(body) => Some(Strip(body))
  }

  /** The section text before stripping: from after the heading's line to the next heading or the end. */
  function RawSection(template: string, name: string): (r: Option<string>)
    ensures IndexOfFrom(template, "## " + name, 0).None? ==> r.None?
  {
    match HeadingLineEnd(template, name)
    case None => None
    case Some(q) => Some(template[q + 1..SectionEnd(template, q + 1)])
  }

  /** The line break that ends the first "## <name>" heading line, if there is one. */
  function HeadingLineEnd(template: string, name: string): (r: Option<nat>)
    ensures IndexOfFrom(template, "## " + name, 0).None? ==> r.None?
    ensures r.Some? ==> r.value < |template| && template[r.value] == '\n'
  {
    match IndexOfFrom(template, "## " + name, 0)
    case None => None
    case Some(p) => IndexOfFrom(template, "\n", p + |"## " + name|)
  }

  /** Where a section body starting at `from` stops: the next "\n## ", or the end of the template. */
  function SectionEnd(template: string, from: nat): (e: nat)
    requires from <= |template|
    ensures from <= e <= |template|
  {
    match IndexOfFrom(template, "\n## ", from)
    case None => |template|
    case Some(e) => e
  }

  /** A search returns the occurrence it is shown, when nothing earlier matches. */
  lemma FirstOccurrence(s: string, p: string, from: nat, i: nat)
    requires from <= i && OccursAt(s, p, i)
    requires forall k :: from <= k < i ==> !OccursAt(s, p, k)
    ensures IndexOfFrom(s, p, from) == Some(i)
  {
  }

  /** A search finds nothing when no position from `from` on holds the pattern. */
  lemma NoOccurrence(s: string, p: string, from: nat)
    requires |p| >= 1
    requires forall k :: from <= k < |s| ==> !OccursAt(s, p, k)
    ensures IndexOfFrom(s, p, from).None?
  {
  }

  /**
   * A template laid out as text, the heading line "## <name><rest>", the section
   * body, then either the next "\n## " heading or the end: the section that
   * comes out is the body, whatever surrounds it.
   */
  lemma ExtractPhaseOfSection(t: string, pre: string, name: string, rest: string, body: string, post: string)
    requires t == pre + ("## " + name) + rest + "\n" + body + post
    requires forall k :: 0 <= k < |pre| ==> !OccursAt(t, "## " + name, k)
    requires '\n' !in rest
    requires var start := |pre| + |"## " + name| + |rest| + 1;
      forall k :: start <= k < start + |body| ==> !OccursAt(t, "\n## ", k)
    requires post == [] || IsPrefix("\n## ", post)
    ensures RawSection(t, name) == Some(body)
    ensures ExtractPhase(t, name) == Some(Strip(body))
  {
    var q := |pre| + |"## " + name| + |rest|;
    var start := q + 1;
    var end := start + |body|;
    HeadingLineEndOf(t, pre, name, rest, body, post);
    assert t[start..end] == body;
    if post == [] {
      assert end == |t|;
      NoOccurrence(t, "\n## ", start);
    } else {
      assert t[end..end + 4] == post[..4] == "\n## ";
      FirstOccurrence(t, "\n## ", start, end);
    }
    assert SectionEnd(t, start) == end;
  }

  /** In such a template the heading line ends at the line break after `rest`. */
  lemma HeadingLineEndOf(t: string, pre: string, name: string, rest: string, body: string, post: string)
    requires t == pre + ("## " + name) + rest + "\n" + body + post
    requires forall k :: 0 <= k < |pre| ==> !OccursAt(t, "## " + name, k)
    requires '\n' !in rest
    ensures HeadingLineEnd(t, name) == Some(|pre| + |"## " + name| + |rest|)
  {
    var h := "## " + name;
    HeadingSlices(t, pre, h, rest, body, post);
    NoNewlineWithin(t, |pre| + |h|, rest);
    HeadingLineEndAt(t, name, |pre|, |pre| + |h| + |rest|);
  }

  /** The pieces of a template laid out as heading, rest of the line, line break, body and what follows, read back by position. */
  lemma HeadingSlices(t: string, pre: string, h: string, rest: string, body: string, post: string)
    requires t == pre + h + rest + "\n" + body + post
    ensures var q := |pre| + |h| + |rest|;
      && |t| == q + 1 + |body| + |post|
      && t[|pre|..|pre| + |h|] == h
      && t[|pre| + |h|..q] == rest
      && t[q..q + 1] == "\n"
      && t[q + 1..q + 1 + |body|] == body
      && t[q + 1 + |body|..] == post
  {
  }

  /** The heading line ends at the first line break after the first heading. */
  lemma HeadingLineEndAt(t: string, name: string, p: nat, q: nat)
    requires OccursAt(t, "## " + name, p)
    requires forall k :: 0 <= k < p ==> !OccursAt(t, "## " + name, k)
    requires p + |"## " + name| <= q && OccursAt(t, "\n", q)
    requires forall k :: p + |"## " + name| <= k < q ==> !OccursAt(t, "\n", k)
    ensures HeadingLineEnd(t, name) == Some(q)
  {
    FirstOccurrence(t, "## " + name, 0, p);
    FirstOccurrence(t, "\n", p + |"## " + name|, q);
  }

  /** A stretch of `t` that copies a newline-free `rest` holds no newline. */
  lemma NoNewlineWithin(t: string, a: nat, rest: string)
    requires a + |rest| <= |t| && t[a..a + |rest|] == rest && '\n' !in rest
    ensures forall k :: a <= k < a + |rest| ==> !OccursAt(t, "\n", k)
  {
    forall k | a <= k < a + |rest|
      ensures !OccursAt(t, "\n", k)
    {
      assert t[k] == rest[k - a];
    }
  }

  /** Callers treat a missing section and an empty one alike (`if not phase_template`). */
  predicate Usable(section: Option<string>)
  {
    section.Some? && section.value != []
  }

  // ---------------------------------------------------------------------------
  // Phase 1: one prompt per titled H2.

  /** The phase 1 prompts for the first H2s of the outline, numbered from 1 by position. */
  function Phase1Prompts(section: string, entries: seq<H2Entry>): (r: seq<H2Prompt>)
    ensures |r| <= |entries|
    ensures forall k :: 0 <= k < |r| ==> r[k].h2 != [] && 1 <= r[k].h2Index <= |entries|
  {
    if entries == [] then []
    else
      var n := |entries| - 1;
      var h2 := entries[n].h2;
      Phase1Prompts(section, entries[..n])
      + (if h2 != [] then [H2Prompt("phase1", n + 1, h2, Replace(section, Phase1Placeholder, h2))] else [])
  }

  /** What generate_phase1 returns. */
  function Phase1(template: string, data: ExtractedResult): seq<H2Prompt>
  {
    var section := ExtractPhase(template, Phase1Name);
    if Usable(section) then Phase1Prompts(section.value, data.structure) else []
  }

  /** generate_phase1: the section, then one substitution per H2 with a non-empty title. */
  method GeneratePhase1(template: string, data: ExtractedResult) returns (prompts: seq<H2Prompt>)
    ensures prompts == Phase1(template, data)
  {
    var phaseTemplate := ExtractPhase(template, Phase1Name);
    if !Usable(phaseTemplate) {
      return [];
    }
    prompts := CollectPhase1Prompts(phaseTemplate.value, data.structure);
  }

  /** The loop of generate_phase1 over the H2 entries, with the section already extracted. */
  method CollectPhase1Prompts(section: string, entries: seq<H2Entry>) returns (prompts: seq<H2Prompt>)
    ensures prompts == Phase1Prompts(section, entries)
  {
    prompts := [];
    var i := 0;
    while i < |entries|
      invariant 0 <= i <= |entries|
      invariant prompts == Phase1Prompts(section, entries[..i])
    {
      var h2Title := entries[i].h2;
      assert entries[..i + 1][..i] == entries[..i];
      if h2Title != [] {
        var prompt := Replace(section, Phase1Placeholder, h2Title);
        prompts := prompts + [H2Prompt("phase1", i + 1, h2Title, prompt)];
      }
      i := i + 1;
    }
    assert entries[..i] == entries;
  }

  /** Each phase 1 prompt belongs to the titled H2 at its index, with the placeholder replaced by that title. */
  lemma {:induction false} Phase1PromptsSound(section: string, entries: seq<H2Entry>)
    ensures forall p :: p in Phase1Prompts(section, entries) ==>
      && p.phase == "phase1"
      && p.h2 == entries[p.h2Index - 1].h2
      && p.prompt == Replace(section, Phase1Placeholder, p.h2)
  {
    if entries != [] {
      var n := |entries| - 1;
      var front := entries[..n];
      Phase1PromptsSound(section, front);
      var f := Phase1Prompts(section, front);
      var r := Phase1Prompts(section, entries);
      var h2 := entries[n].h2;
      assert r == f + (if h2 != [] then [H2Prompt("phase1", n + 1, h2, Replace(section, Phase1Placeholder, h2))] else []);
      forall p | p in r
        ensures p.phase == "phase1" && p.h2 == entries[p.h2Index - 1].h2
        ensures p.prompt == Replace(section, Phase1Placeholder, p.h2)
      {
        if p in f {
          assert front[p.h2Index - 1] == entries[p.h2Index - 1];
        }
      }
    }
  }

  /** The phase 1 prompts come in outline order, at most one per H2. */
  lemma {:induction false} Phase1PromptsOrdered(section: string, entries: seq<H2Entry>)
    ensures forall k, l :: 0 <= k < l < |Phase1Prompts(section, entries)| ==>
      Phase1Prompts(section, entries)[k].h2Index < Phase1Prompts(section, entries)[l].h2Index
  {
    if entries != [] {
      var n := |entries| - 1;
      Phase1PromptsOrdered(section, entries[..n]);
      var f := Phase1Prompts(section, entries[..n]);
      var r := Phase1Prompts(section, entries);
      var h2 := entries[n].h2;
      assert r == f + (if h2 != [] then [H2Prompt("phase1", n + 1, h2, Replace(section, Phase1Placeholder, h2))] else []);
      forall k, l | 0 <= k < l < |r|
        ensures r[k].h2Index < r[l].h2Index
      {
        assert r[k] == f[k];
        if l < |f| {
          assert r[l] == f[l];
        }
      }
    }
  }

  /** Every H2 with a non-empty title gets its prompt; skipped H2s still use up their index. */
  lemma Phase1PromptsComplete(section: string, entries: seq<H2Entry>, i: nat)
    requires i < |entries| && entries[i].h2 != []
    ensures exists k :: 0 <= k < |Phase1Prompts(section, entries)| && Phase1Prompts(section, entries)[k].h2Index == i + 1
  {
    var upTo := entries[..i + 1];
    Phase1PromptsUnfold(section, upTo);
    var f := Phase1Prompts(section, upTo);
    assert f[|f| - 1].h2Index == i + 1;
    Phase1PromptsPrefix(section, entries, i + 1);
    assert Phase1Prompts(section, entries)[|f| - 1] == f[|f| - 1];
  }

  /** The prompts of the first `j` H2s are a prefix of the prompts of all of them. */
  lemma {:induction false} Phase1PromptsPrefix(section: string, entries: seq<H2Entry>, j: nat)
    requires j <= |entries|
    ensures var f := Phase1Prompts(section, entries[..j]);
      |f| <= |Phase1Prompts(section, entries)| && forall k :: 0 <= k < |f| ==> Phase1Prompts(section, entries)[k] == f[k]
    decreases |entries|
  {
    if j == |entries| {
      assert entries[..j] == entries;
    } else {
      var n := |entries| - 1;
      assert entries[..n][..j] == entries[..j];
      Phase1PromptsPrefix(section, entries[..n], j);
      Phase1PromptsUnfold(section, entries);
    }
  }

  /** The last H2 contributes one prompt after those of the others when it is titled, none otherwise. */
  lemma Phase1PromptsUnfold(section: string, entries: seq<H2Entry>)
    requires entries != []
    ensures var n := |entries| - 1;
      && |Phase1Prompts(section, entries)| == |Phase1Prompts(section, entries[..n])| + (if entries[n].h2 != [] then 1 else 0)
      && (forall k :: 0 <= k < |Phase1Prompts(section, entries[..n])| ==>
            Phase1Prompts(section, entries)[k] == Phase1Prompts(section, entries[..n])[k])
      && (entries[n].h2 != [] ==>
            Phase1Prompts(section, entries)[|Phase1Prompts(section, entries[..n])|]
              == H2Prompt("phase1", n + 1, entries[n].h2, Replace(section, Phase1Placeholder, entries[n].h2)))
  {
  }

  // ---------------------------------------------------------------------------
  // Phase 2: one prompt per titled H3, across all H2s.

  /** The phase 2 prompts for the first H3s below the H2 at 1-based position `h2Index`. */
  function H3Prompts(section: string, h2Index: nat, h2: string, h3s: seq<H3Entry>): (r: seq<H3Prompt>)
    ensures |r| <= |h3s|
    ensures forall p :: p in r ==>
      && p.phase == "phase2" && p.h2Index == h2Index && p.h2 == h2
      && 1 <= p.h3Index <= |h3s| && p.h3 == h3s[p.h3Index - 1].h3 && p.h3 != []
      && p.prompt == Replace(section, Phase2Placeholder, p.h3)
  {
    if h3s == [] then []
    else
      var n := |h3s| - 1;
      var h3 := h3s[n].h3;
      var front := H3Prompts(section, h2Index, h2, h3s[..n]);
      assert forall p :: p in front ==> h3s[..n][p.h3Index - 1] == h3s[p.h3Index - 1];
      front + (if h3 != [] then [H3Prompt("phase2", h2Index, n + 1, h2, h3, Replace(section, Phase2Placeholder, h3))] else [])
  }

  /** The phase 2 prompts for the first H2s of the outline. */
  function Phase2Prompts(section: string, entries: seq<H2Entry>): (r: seq<H3Prompt>)
    ensures forall p :: p in r ==>
      && 1 <= p.h2Index <= |entries| && p.h2 == entries[p.h2Index - 1].h2
      && 1 <= p.h3Index <= |entries[p.h2Index - 1].h3Sections|
      && p.h3 == entries[p.h2Index - 1].h3Sections[p.h3Index - 1].h3 && p.h3 != []
  {
    if entries == [] then []
    else
      var n := |entries| - 1;
      var front := Phase2Prompts(section, entries[..n]);
      assert forall p :: p in front ==> entries[..n][p.h2Index - 1] == entries[p.h2Index - 1];
      front + H3Prompts(section, n + 1, entries[n].h2, entries[n].h3Sections)
  }

  /** What generate_phase2 returns. */
  function Phase2(template: string, data: ExtractedResult): seq<H3Prompt>
  {
    var section := ExtractPhase(template, Phase2Name);
    if Usable(section) then Phase2Prompts(section.value, data.structure) else []
  }

  /** generate_phase2: the nested loop over H2s and their H3s; untitled H2s are not skipped. */
  method GeneratePhase2(template: string, data: ExtractedResult) returns (prompts: seq<H3Prompt>)
    ensures prompts == Phase2(template, data)
  {
    var phaseTemplate := ExtractPhase(template, Phase2Name);
    if !Usable(phaseTemplate) {
      return [];
    }
    prompts := CollectPhase2Prompts(phaseTemplate.value, data.structure);
  }

  /** The outer loop of generate_phase2 over the H2 entries, with the section already extracted. */
  method CollectPhase2Prompts(section: string, entries: seq<H2Entry>) returns (prompts: seq<H3Prompt>)
    ensures prompts == Phase2Prompts(section, entries)
  {
    prompts := [];
    var i := 0;
    while i < |entries|
      invariant 0 <= i <= |entries|
      invariant prompts == Phase2Prompts(section, entries[..i])
    {
      var h3Prompts := GenerateH3Prompts(section, i + 1, entries[i].h2, entries[i].h3Sections);
      Phase2PromptsStep(section, entries, i);
      prompts := prompts + h3Prompts;
      i := i + 1;
    }
    assert entries[..i] == entries;
  }

  /** One more H2 adds its own H3 prompts at the end. */
  lemma Phase2PromptsStep(section: string, entries: seq<H2Entry>, i: nat)
    requires i < |entries|
    ensures Phase2Prompts(section, entries[..i + 1])
         == Phase2Prompts(section, entries[..i]) + H3Prompts(section, i + 1, entries[i].h2, entries[i].h3Sections)
  {
    assert entries[..i + 1][..i] == entries[..i];
  }

  /** The inner loop of generate_phase2: the titled H3s of one H2, keeping their 1-based positions. */
  method GenerateH3Prompts(section: string, h2Index: nat, h2Title: string, h3Sections: seq<H3Entry>)
    returns (prompts: seq<H3Prompt>)
    ensures prompts == H3Prompts(section, h2Index, h2Title, h3Sections)
  {
    prompts := [];
    var j := 0;
    while j < |h3Sections|
      invariant 0 <= j <= |h3Sections|
      invariant prompts == H3Prompts(section, h2Index, h2Title, h3Sections[..j])
    {
      var h3Title := h3Sections[j].h3;
      assert h3Sections[..j + 1][..j] == h3Sections[..j];
      if h3Title != [] {
        var prompt := Replace(section, Phase2Placeholder, h3Title);
        prompts := prompts + [H3Prompt("phase2", h2Index, j + 1, h2Title, h3Title, prompt)];
      }
      j := j + 1;
    }
    assert h3Sections[..j] == h3Sections;
  }

  /** Position (a, b) comes strictly before (c, d) in outline order. */
  predicate Before(a: nat, b: nat, c: nat, d: nat)
  {
    a < c || (a == c && b < d)
  }

  /** Within one H2 the phase 2 prompts follow the H3 order. */
  lemma {:induction false} H3PromptsOrdered(section: string, h2Index: nat, h2: string, h3s: seq<H3Entry>)
    ensures forall k, l :: 0 <= k < l < |H3Prompts(section, h2Index, h2, h3s)| ==>
      H3Prompts(section, h2Index, h2, h3s)[k].h3Index < H3Prompts(section, h2Index, h2, h3s)[l].h3Index
  {
    if h3s != [] {
      var n := |h3s| - 1;
      H3PromptsOrdered(section, h2Index, h2, h3s[..n]);
      var f := H3Prompts(section, h2Index, h2, h3s[..n]);
      var r := H3Prompts(section, h2Index, h2, h3s);
      var h3 := h3s[n].h3;
      assert r == f + (if h3 != [] then [H3Prompt("phase2", h2Index, n + 1, h2, h3, Replace(section, Phase2Placeholder, h3))] else []);
      forall k, l | 0 <= k < l < |r|
        ensures r[k].h3Index < r[l].h3Index
      {
        assert r[k] == f[k] && f[k] in f;
        if l < |f| {
          assert r[l] == f[l];
        }
      }
    }
  }

  /** The phase 2 prompts follow the outline: by H2 position, then by H3 position. */
  lemma {:induction false} Phase2PromptsOrdered(section: string, entries: seq<H2Entry>)
    ensures forall k, l :: 0 <= k < l < |Phase2Prompts(section, entries)| ==>
      Before(Phase2Prompts(section, entries)[k].h2Index, Phase2Prompts(section, entries)[k].h3Index,
             Phase2Prompts(section, entries)[l].h2Index, Phase2Prompts(section, entries)[l].h3Index)
  {
    if entries != [] {
      var n := |entries| - 1;
      Phase2PromptsOrdered(section, entries[..n]);
      var f := Phase2Prompts(section, entries[..n]);
      var g := H3Prompts(section, n + 1, entries[n].h2, entries[n].h3Sections);
      H3PromptsOrdered(section, n + 1, entries[n].h2, entries[n].h3Sections);
      var r := Phase2Prompts(section, entries);
      assert r == f + g;
      forall k, l | 0 <= k < l < |r|
        ensures Before(r[k].h2Index, r[k].h3Index, r[l].h2Index, r[l].h3Index)
      {
        if l < |f| {
          assert r[k] == f[k] && r[l] == f[l];
        } else if k < |f| {
          assert r[k] == f[k] && f[k] in f;
          assert r[l] == g[l - |f|] && g[l - |f|] in g;
        } else {
          assert r[k] == g[k - |f|] && r[l] == g[l - |f|];
        }
      }
    }
  }

  /** The number of H3s with a non-empty title. */
  function TitledH3Count(h3s: seq<H3Entry>): nat
  {
    if h3s == [] then 0 else TitledH3Count(h3s[..|h3s| - 1]) + (if h3s[|h3s| - 1].h3 != [] then 1 else 0)
  }

  /** The number of titled H3s over the whole outline. */
  function OutlineTitledH3Count(entries: seq<H2Entry>): nat
  {
    if entries == [] then 0
    else OutlineTitledH3Count(entries[..|entries| - 1]) + TitledH3Count(entries[|entries| - 1].h3Sections)
  }

  /** Phase 2 makes exactly one prompt per titled H3, whatever the title of its H2. */
  lemma {:induction false} Phase2PromptsCount(section: string, entries: seq<H2Entry>)
    ensures |Phase2Prompts(section, entries)| == OutlineTitledH3Count(entries)
  {
    if entries != [] {
      var n := |entries| - 1;
      Phase2PromptsCount(section, entries[..n]);
      H3PromptsCount(section, n + 1, entries[n].h2, entries[n].h3Sections);
    }
  }

  lemma {:induction false} H3PromptsCount(section: string, h2Index: nat, h2: string, h3s: seq<H3Entry>)
    ensures |H3Prompts(section, h2Index, h2, h3s)| == TitledH3Count(h3s)
  {
    if h3s != [] {
      H3PromptsCount(section, h2Index, h2, h3s[..|h3s| - 1]);
    }
  }

  // ---------------------------------------------------------------------------
  // Phase 3: one prompt per H2 that has a title and at least one H3.

  /** The "- <h3>" lines of the titled H3s, in order. */
  function BulletLines(h3s: seq<H3Entry>): (r: seq<string>)
    ensures |r| <= |h3s|
  {
    if h3s == [] then []
    else
      var n := |h3s| - 1;
      BulletLines(h3s[..n]) + (if h3s[n].h3 != [] then ["- " + h3s[n].h3] else [])
  }

  /** The H3 list pasted into a phase 3 prompt: the bullet lines joined by line breaks. */
  function H3List(h3s: seq<H3Entry>): string
  {
    Join(BulletLines(h3s), "\n")
  }

  /** The phase 3 prompt of one H2: its title substituted first, then its H3 list. */
  function Phase3Prompt(section: string, h2: string, h3s: seq<H3Entry>): string
  {
    Replace(Replace(section, Phase3H2Placeholder, h2), Phase3ListPlaceholder, H3List(h3s))
  }

  /** The phase 3 prompts for the first H2s of the outline. */
  function Phase3Prompts(section: string, entries: seq<H2Entry>): (r: seq<H2Prompt>)
    ensures |r| <= |entries|
    ensures forall p :: p in r ==> 1 <= p.h2Index <= |entries|
  {
    if entries == [] then []
    else
      var n := |entries| - 1;
      Phase3Prompts(section, entries[..n]) + Phase3Item(section, n + 1, entries[n])
  }

  /** The phase 3 prompt of the H2 at 1-based position `index`, if it has a title and H3s. */
  function Phase3Item(section: string, index: nat, e: H2Entry): seq<H2Prompt>
  {
    if e.h2 != [] && e.h3Sections != [] then [H2Prompt("phase3", index, e.h2, Phase3Prompt(section, e.h2, e.h3Sections))] else []
  }

  /** What generate_phase3 returns. */
  function Phase3(template: string, data: ExtractedResult): seq<H2Prompt>
  {
    var section := ExtractPhase(template, Phase3Name);
    if Usable(section) then Phase3Prompts(section.value, data.structure) else []
  }

  /** generate_phase3: H2s without a title or without H3s are skipped, keeping their index. */
  method GeneratePhase3(template: string, data: ExtractedResult) returns (prompts: seq<H2Prompt>)
    ensures prompts == Phase3(template, data)
  {
    var phaseTemplate := ExtractPhase(template, Phase3Name);
    if !Usable(phaseTemplate) {
      return [];
    }
    prompts := CollectPhase3Prompts(phaseTemplate.value, data.structure);
  }

  /** The loop of generate_phase3 over the H2 entries, with the section already extracted. */
  method CollectPhase3Prompts(section: string, entries: seq<H2Entry>) returns (prompts: seq<H2Prompt>)
    ensures prompts == Phase3Prompts(section, entries)
  {
    prompts := [];
    var i := 0;
    while i < |entries|
      invariant 0 <= i <= |entries|
      invariant prompts == Phase3Prompts(section, entries[..i])
    {
      var h2Title := entries[i].h2;
      var h3Sections := entries[i].h3Sections;
      Phase3PromptsStep(section, entries, i);
      if h2Title != [] && h3Sections != [] {
        var prompt := Phase3Prompt(section, h2Title, h3Sections);
        prompts := prompts + [H2Prompt("phase3", i + 1, h2Title, prompt)];
      }
      i := i + 1;
    }
    assert entries[..i] == entries;
  }

  /** One more H2 adds its own phase 3 prompt, if any, at the end. */
  lemma Phase3PromptsStep(section: string, entries: seq<H2Entry>, i: nat)
    requires i < |entries|
    ensures Phase3Prompts(section, entries[..i + 1]) == Phase3Prompts(section, entries[..i]) + Phase3Item(section, i + 1, entries[i])
  {
    assert entries[..i + 1][..i] == entries[..i];
  }

  /**
   * `p` is the phase 3 prompt of the H2 it points at: that H2 is titled, has
   * H3s, and `p` carries its title and the filled template.
   */
  predicate Phase3PromptFor(section: string, entries: seq<H2Entry>, p: H2Prompt) {
    && 1 <= p.h2Index <= |entries|
    && p.phase == "phase3"
    && p.h2 == entries[p.h2Index - 1].h2 && p.h2 != []
    && entries[p.h2Index - 1].h3Sections != []
    && p.prompt == Phase3Prompt(section, p.h2, entries[p.h2Index - 1].h3Sections)
  }

  /** Each phase 3 prompt belongs to the H2 at its index, which has a title and H3s. */
  lemma {:induction false} Phase3PromptsSound(section: string, entries: seq<H2Entry>)
    ensures forall p :: p in Phase3Prompts(section, entries) ==> Phase3PromptFor(section, entries, p)
  {
    if entries != [] {
      var n := |entries| - 1;
      var front := entries[..n];
      Phase3PromptsSound(section, front);
      var f := Phase3Prompts(section, front);
      var r := Phase3Prompts(section, entries);
      var e := entries[n];
      assert r == f + Phase3Item(section, n + 1, e);
      forall p | p in r
        ensures Phase3PromptFor(section, entries, p)
      {
        if p in f {
          assert Phase3PromptFor(section, front, p);
          assert front[p.h2Index - 1] == entries[p.h2Index - 1];
        } else {
          assert p in Phase3Item(section, n + 1, e);
          assert p == H2Prompt("phase3", n + 1, e.h2, Phase3Prompt(section, e.h2, e.h3Sections));
        }
      }
    }
  }

  /** The phase 3 prompts come in outline order, at most one per H2. */
  lemma {:induction false} Phase3PromptsOrdered(section: string, entries: seq<H2Entry>)
    ensures forall k, l :: 0 <= k < l < |Phase3Prompts(section, entries)| ==>
      Phase3Prompts(section, entries)[k].h2Index < Phase3Prompts(section, entries)[l].h2Index
  {
    if entries != [] {
      var n := |entries| - 1;
      Phase3PromptsOrdered(section, entries[..n]);
      var f := Phase3Prompts(section, entries[..n]);
      var r := Phase3Prompts(section, entries);
      var e := entries[n];
      assert r == f + Phase3Item(section, n + 1, e);
      forall k, l | 0 <= k < l < |r|
        ensures r[k].h2Index < r[l].h2Index
      {
        assert r[k] == f[k];
        if l < |f| {
          assert r[l] == f[l];
        }
      }
    }
  }

  /** Every H2 with a title and at least one H3 gets its phase 3 prompt, at its own index. */
  lemma {:induction false} Phase3PromptsComplete(section: string, entries: seq<H2Entry>, i: nat)
    requires i < |entries| && entries[i].h2 != [] && entries[i].h3Sections != []
    ensures exists k :: 0 <= k < |Phase3Prompts(section, entries)| && Phase3Prompts(section, entries)[k].h2Index == i + 1
  {
    var n := |entries| - 1;
    var f := Phase3Prompts(section, entries[..n]);
    var r := Phase3Prompts(section, entries);
    assert r == f + Phase3Item(section, n + 1, entries[n]);
    if i < n {
      assert entries[..n][i] == entries[i];
      Phase3PromptsComplete(section, entries[..n], i);
      var k :| 0 <= k < |f| && f[k].h2Index == i + 1;
      assert r[k] == f[k];
    } else {
      assert r[|f|].h2Index == i + 1;
    }
  }

  /** The H3 titles in order, skipping the empty ones. */
  function TitledH3s(h3s: seq<H3Entry>): (r: seq<string>)
    ensures forall k :: 0 <= k < |r| ==> r[k] != []
  {
    if h3s == [] then []
    else
      var n := |h3s| - 1;
      TitledH3s(h3s[..n]) + (if h3s[n].h3 != [] then [h3s[n].h3] else [])
  }

  /**
   * When no H3 title holds a line break and at least one is non-empty, splitting
   * the H3 list at line breaks gives back one "- <title>" line per titled H3.
   */
  lemma H3ListRoundTrip(h3s: seq<H3Entry>)
    requires forall k :: 0 <= k < |h3s| ==> '\n' !in h3s[k].h3
    requires TitledH3s(h3s) != []
    ensures |Split(H3List(h3s), "\n")| == |TitledH3s(h3s)|
    ensures forall k :: 0 <= k < |TitledH3s(h3s)| ==> Split(H3List(h3s), "\n")[k] == "- " + TitledH3s(h3s)[k]
  {
    BulletsOfTitles(h3s);
    SplitJoinInverse(BulletLines(h3s), '\n');
  }

  /** The bullet lines are "- " before each titled H3, and hold no line break when the titles hold none. */
  lemma {:induction false} BulletsOfTitles(h3s: seq<H3Entry>)
    requires forall k :: 0 <= k < |h3s| ==> '\n' !in h3s[k].h3
    ensures |BulletLines(h3s)| == |TitledH3s(h3s)|
    ensures forall k :: 0 <= k < |TitledH3s(h3s)| ==> BulletLines(h3s)[k] == "- " + TitledH3s(h3s)[k]
    ensures forall k :: 0 <= k < |BulletLines(h3s)| ==> '\n' !in BulletLines(h3s)[k]
  {
    if h3s != [] {
      var n := |h3s| - 1;
      BulletsOfTitles(h3s[..n]);
      assert forall k :: 0 <= k < n ==> h3s[..n][k] == h3s[k];
      var t := h3s[n].h3;
      if t != [] {
        assert '\n' !in "- " + t by {
          assert "- " + t == ['-', ' '] + t;
        }
      }
    }
  }

  // ---------------------------------------------------------------------------
  // Phases 4 to 6: the bare section; phase 4 adds the blueprint.

  /** What generate_phase5 and generate_phase6 return: the section as it stands, or nothing. */
  function TemplateOnly(template: string, name: string, phase: string): (r: Option<TemplatePrompt>)
    ensures r.Some? <==> Usable(ExtractPhase(template, name))
    ensures r.Some? ==> r.value == TemplatePrompt(phase, ExtractPhase(template, name).value, None)
  {
    var section := ExtractPhase(template, name);
    if Usable(section) then Some(TemplatePrompt(phase, section.value, None)) else None
  }

  /** What generate_phase4 returns. */
  function Phase4(template: string, data: ExtractedResult): (r: Option<TemplatePrompt>)
    ensures r.Some? <==> Usable(ExtractPhase(template, Phase4Name))
    ensures r.Some? ==> r.value.prompt == ExtractPhase(template, Phase4Name).value && r.value.blueprint == Some(Blueprint(data))
  {
    var section := ExtractPhase(template, Phase4Name);
    if Usable(section) then Some(TemplatePrompt("phase4", section.value, Some(Blueprint(data)))) else None
  }

  /** generate_phase4: the section unchanged, with the blueprint beside it. */
  method GeneratePhase4(template: string, data: ExtractedResult) returns (r: Option<TemplatePrompt>)
    ensures r == Phase4(template, data)
  {
    var phaseTemplate := ExtractPhase(template, Phase4Name);
    if !Usable(phaseTemplate) {
      return None;
    }
    var blueprint := FormatBlueprint(data);
    r := Some(TemplatePrompt("phase4", phaseTemplate.value, Some(blueprint)));
  }

  // ---------------------------------------------------------------------------
  // The blueprint.

  const ProposalsHeadingLine := "## 独自性の提案\n"

  /** The line that names an H2 in the blueprint. */
  function H2Line(title: string): string { "## " + title + "\n" }

  /** The line that names an H3, or a proposal, in the blueprint. */
  function H3Line(title: string): string { "### " + title + "\n" }

  /** The heading line of the blueprint. */
  function BlueprintHeader(pattern: string): string
  {
    "# 設計図（パターン" + pattern + "）\n"
  }

  /** The keywords line of an H3: its keywords joined by ", ". */
  function KeywordsLine(keywords: seq<string>): string
  {
    "**キーワード:** " + Join(keywords, ", ") + "\n"
  }

  /** The lines of one H3: title, advice, keywords when there are any, and a blank line. */
  function H3Lines(h: H3Entry): (r: seq<string>)
    ensures |r| == if h.keywords != [] then 4 else 3
  {
    [H3Line(h.h3), "**執筆アドバイス:** " + h.advice + "\n"]
    + (if h.keywords != [] then [KeywordsLine(h.keywords)] else [])
    + ["\n"]
  }

  /** The lines of a run of H3s. */
  function H3sLines(h3s: seq<H3Entry>): seq<string>
  {
    if h3s == [] then [] else H3sLines(h3s[..|h3s| - 1]) + H3Lines(h3s[|h3s| - 1])
  }

  /** The lines of one H2: its heading, then its H3s. */
  function H2Lines(e: H2Entry): seq<string>
  {
    [H2Line(e.h2)] + H3sLines(e.h3Sections)
  }

  /** The lines of the whole outline. */
  function StructureLines(entries: seq<H2Entry>): seq<string>
  {
    if entries == [] then [] else StructureLines(entries[..|entries| - 1]) + H2Lines(entries[|entries| - 1])
  }

  /** The lines of the originality proposals: title, then advice followed by a blank line. */
  function ProposalLines(proposals: seq<Proposal>): seq<string>
  {
    if proposals == [] then []
    else
      var p := proposals[|proposals| - 1];
      ProposalLines(proposals[..|proposals| - 1]) + [H3Line(p.title), p.advice + "\n\n"]
  }

  /** Every line _format_blueprint collects, in order. */
  function BlueprintLines(data: ExtractedResult): seq<string>
  {
    [BlueprintHeader(data.pattern)] + StructureLines(data.structure)
    + (if data.proposals != [] then [ProposalsHeadingLine] + ProposalLines(data.proposals) else [])
  }

  /** What _format_blueprint returns: its lines joined by line breaks. */
  function Blueprint(data: ExtractedResult): string
  {
    Join(BlueprintLines(data), "\n")
  }

  /** _format_blueprint: the header, the nested loop over H2s and H3s, then the proposals when there are any. */
  method FormatBlueprint(data: ExtractedResult) returns (text: string)
    ensures text == Blueprint(data)
  {
    var lines := [BlueprintHeader(data.pattern)];
    var structureLines := FormatStructure(data.structure);
    lines := lines + structureLines;
    if data.proposals != [] {
      var proposalLines := FormatProposals(data.proposals);
      lines := lines + ([ProposalsHeadingLine] + proposalLines);
    }
    assert lines == BlueprintLines(data);
    text := Join(lines, "\n");
  }

  /** The outer loop of _format_blueprint: each H2 heading followed by its H3s. */
  method FormatStructure(entries: seq<H2Entry>) returns (lines: seq<string>)
    ensures lines == StructureLines(entries)
  {
    lines := [];
    var i := 0;
    while i < |entries|
      invariant 0 <= i <= |entries|
      invariant lines == StructureLines(entries[..i])
    {
      lines := lines + [H2Line(entries[i].h2)];
      var h3Lines := FormatH3s(entries[i].h3Sections);
      lines := lines + h3Lines;
      assert entries[..i + 1][..i] == entries[..i];
      i := i + 1;
    }
    assert entries[..i] == entries;
  }

  /** The proposals loop of _format_blueprint. */
  method FormatProposals(proposals: seq<Proposal>) returns (lines: seq<string>)
    ensures lines == ProposalLines(proposals)
  {
    lines := [];
    var j := 0;
    while j < |proposals|
      invariant 0 <= j <= |proposals|
      invariant lines == ProposalLines(proposals[..j])
    {
      lines := lines + [H3Line(proposals[j].title), proposals[j].advice + "\n\n"];
      assert proposals[..j + 1][..j] == proposals[..j];
      j := j + 1;
    }
    assert proposals[..j] == proposals;
  }

  /** The inner loop of _format_blueprint: the lines of each H3 in turn. */
  method FormatH3s(h3s: seq<H3Entry>) returns (lines: seq<string>)
    ensures lines == H3sLines(h3s)
  {
    lines := [];
    var j := 0;
    while j < |h3s|
      invariant 0 <= j <= |h3s|
      invariant lines == H3sLines(h3s[..j])
    {
      var h := h3s[j];
      lines := lines + [H3Line(h.h3)];
      lines := lines + ["**執筆アドバイス:** " + h.advice + "\n"];
      if h.keywords != [] {
        lines := lines + [KeywordsLine(h.keywords)];
      }
      lines := lines + ["\n"];
      assert h3s[..j + 1][..j] == h3s[..j];
      j := j + 1;
    }
    assert h3s[..j] == h3s;
  }

  const KeywordsPrefix := "**キーワード:** "

  /**
   * An H3's lines hold a keywords line exactly when the H3 has keywords: the title,
   * advice and blank lines never start the way a keywords line does.
   */
  lemma KeywordsLineIffKeywords(h: H3Entry)
    ensures (exists line :: line in H3Lines(h) && IsPrefix(KeywordsPrefix, line)) <==> h.keywords != []
  {
    var t := H3Line(h.h3);
    var a := "**執筆アドバイス:** " + h.advice + "\n";
    assert t[0] == '#' && !IsPrefix(KeywordsPrefix, t);
    assert a[2] == '執' && !IsPrefix(KeywordsPrefix, a);
    assert !IsPrefix(KeywordsPrefix, "\n");
    if h.keywords != [] {
      var kl := KeywordsLine(h.keywords);
      assert kl == KeywordsPrefix + (Join(h.keywords, ", ") + "\n");
      assert kl[..|KeywordsPrefix|] == KeywordsPrefix;
      assert kl in H3Lines(h);
    } else {
      assert H3Lines(h) == [t, a, "\n"];
    }
  }

  /** Every H3 of a run has its title line among the run's lines. */
  lemma {:induction false} H3sLinesHaveTitles(h3s: seq<H3Entry>)
    ensures forall j :: 0 <= j < |h3s| ==> H3Line(h3s[j].h3) in H3sLines(h3s)
  {
    if h3s != [] {
      var n := |h3s| - 1;
      H3sLinesHaveTitles(h3s[..n]);
      assert forall j :: 0 <= j < n ==> h3s[..n][j] == h3s[j];
      assert H3Lines(h3s[n])[0] == H3Line(h3s[n].h3);
    }
  }

  /** Every H2 of the outline has its heading line in the outline's lines. */
  lemma {:induction false} StructureLinesHaveH2s(entries: seq<H2Entry>)
    ensures forall i :: 0 <= i < |entries| ==> H2Line(entries[i].h2) in StructureLines(entries)
  {
    if entries != [] {
      var n := |entries| - 1;
      var front := entries[..n];
      StructureLinesHaveH2s(front);
      var f := StructureLines(front);
      var last := H2Lines(entries[n]);
      assert StructureLines(entries) == f + last;
      forall i | 0 <= i < |entries|
        ensures H2Line(entries[i].h2) in f + last
      {
        if i < n {
          assert front[i] == entries[i];
          assert H2Line(front[i].h2) in f;
        } else {
          assert last[0] == H2Line(entries[i].h2);
        }
      }
    }
  }

  /** Every H3 of the outline has its title line in the outline's lines. */
  lemma {:induction false} StructureLinesHaveH3s(entries: seq<H2Entry>)
    ensures forall i, j :: 0 <= i < |entries| && 0 <= j < |entries[i].h3Sections| ==>
      H3Line(entries[i].h3Sections[j].h3) in StructureLines(entries)
  {
    if entries != [] {
      var n := |entries| - 1;
      var front := entries[..n];
      StructureLinesHaveH3s(front);
      var f := StructureLines(front);
      var h3s := entries[n].h3Sections;
      H3sLinesHaveTitles(h3s);
      var last := H2Lines(entries[n]);
      assert StructureLines(entries) == f + last;
      assert last == [H2Line(entries[n].h2)] + H3sLines(h3s);
      forall i, j | 0 <= i < |entries| && 0 <= j < |entries[i].h3Sections|
        ensures H3Line(entries[i].h3Sections[j].h3) in f + last
      {
        if i < n {
          assert front[i] == entries[i];
          assert H3Line(front[i].h3Sections[j].h3) in f;
        } else {
          assert H3Line(h3s[j].h3) in H3sLines(h3s);
        }
      }
    }
  }

  /** Two lines per proposal, the title line of each among them. */
  lemma {:induction false} ProposalLinesHaveTitles(proposals: seq<Proposal>)
    ensures |ProposalLines(proposals)| == 2 * |proposals|
    ensures forall k :: 0 <= k < |proposals| ==> H3Line(proposals[k].title) in ProposalLines(proposals)
  {
    if proposals != [] {
      var n := |proposals| - 1;
      ProposalLinesHaveTitles(proposals[..n]);
      assert forall k :: 0 <= k < n ==> proposals[..n][k] == proposals[k];
    }
  }

  /**
   * The blueprint opens with its header and names every H2 and every H3 of the
   * outline; the proposals part appears, with every proposal's title, exactly
   * when there are proposals, and otherwise nothing follows the outline.
   */
  lemma BlueprintCoversOutline(data: ExtractedResult)
    ensures BlueprintLines(data)[0] == BlueprintHeader(data.pattern)
    ensures forall i :: 0 <= i < |data.structure| ==> H2Line(data.structure[i].h2) in BlueprintLines(data)
    ensures forall i, j :: 0 <= i < |data.structure| && 0 <= j < |data.structure[i].h3Sections| ==>
      H3Line(data.structure[i].h3Sections[j].h3) in BlueprintLines(data)
    ensures data.proposals != [] ==>
      && BlueprintLines(data)[1 + |StructureLines(data.structure)|] == ProposalsHeadingLine
      && forall k :: 0 <= k < |data.proposals| ==> H3Line(data.proposals[k].title) in BlueprintLines(data)
    ensures |BlueprintLines(data)| == 1 + |StructureLines(data.structure)| + (if data.proposals != [] then 1 + 2 * |data.proposals| else 0)
  {
    StructureLinesHaveH2s(data.structure);
    StructureLinesHaveH3s(data.structure);
    ProposalLinesHaveTitles(data.proposals);
  }

  // ---------------------------------------------------------------------------
  // generate_all

  /** What generate_all returns: every phase from the same template and extraction result. */
  function All(template: string, data: ExtractedResult): AllPrompts
  {
    AllPrompts(
      Phase1(template, data), Phase2(template, data), Phase3(template, data),
      Phase4(template, data),
      TemplateOnly(template, Phase5Name, "phase5"),
      TemplateOnly(template, Phase6Name, "phase6"))
  }

  /** generate_all: the six phases one after the other. */
  method GenerateAll(template: string, data: ExtractedResult) returns (r: AllPrompts)
    ensures r == All(template, data)
    ensures r.phase4.Some? <==> Usable(ExtractPhase(template, Phase4Name))
    ensures r.phase5.Some? <==> Usable(ExtractPhase(template, Phase5Name))
    ensures r.phase6.Some? <==> Usable(ExtractPhase(template, Phase6Name))
  {
    var phase1 := GeneratePhase1(template, data);
    var phase2 := GeneratePhase2(template, data);
    var phase3 := GeneratePhase3(template, data);
    var phase4 := GeneratePhase4(template, data);
    var phase5 := TemplateOnly(template, Phase5Name, "phase5");
    var phase6 := TemplateOnly(template, Phase6Name, "phase6");
    r := AllPrompts(phase1, phase2, phase3, phase4, phase5, phase6);
  }
}

