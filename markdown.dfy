/** `exportAsMarkdown` (src/utils/exportUtils.js): a title, an optional
    query line, the result count, the generation time and a rule, then one
    numbered section per result. A missing title or description prints as
    `undefined`, as a template literal does. */
module Markdown {
  import opened Wrappers
  import opened Seqs
  import opened Text
  import opened UseCases

  const Title := "# GitHub Copilot Use Cases\n\n"
  const QueryLead := "Search query: **"
  const Rule := "---\n\n"

  /** `${x}` for an attribute that may be `undefined`. */
  function Show(o: Option<string>): string {
    if o.Some? then o.value else "undefined"
  }

  /** The query line, printed only for a non-empty query. */
  function QueryLine(query: string): string {
    if query != "" then QueryLead + query + "**\n\n" else ""
  }

  function CountLine(count: nat): string {
    "Total results: " + Decimal(count) + "\n\n"
  }

  function GeneratedLine(generatedOn: string): string {
    "Generated on: " + generatedOn + "\n\n"
  }

  /** Everything before the first section. */
  function Preamble(query: string, count: nat, generatedOn: string): string {
    Title + QueryLine(query) + CountLine(count) + GeneratedLine(generatedOn) + Rule
  }

  /** `## ${index + 1}. ${result.title}`. */
  function Heading(index: nat, u: UseCase): string {
    "## " + Decimal(index + 1) + ". " + Show(u.title) + "\n\n"
  }

  /** The category line; the subcategory is only printed after a category. */
  function CategoryBlock(u: UseCase): string {
    if Truthy(u.category) then
      "**Category:** " + u.category.value
      + (if Truthy(u.subcategory) then " > " + u.subcategory.value else "")
      + "\n\n"
    else ""
  }

  const SurfacesLead := "**Surfaces:** "
  const ModesLead := "**Modes:** "
  const TagsLead := "**Tags:** "

  function DescriptionLine(u: UseCase): string {
    "**Description:** " + Show(u.description) + "\n\n"
  }

  /** A labelled list line, printed only for a non-empty list. */
  function ListLine(lead: string, o: Option<seq<string>>): string {
    if o.Some? && |o.value| > 0 then lead + Join(o.value, ", ") + "\n\n" else ""
  }

  function RiskLine(u: UseCase): string {
    if Truthy(u.riskLevel) then "**Risk Level:** " + u.riskLevel.value + "\n\n" else ""
  }

  /** `${i + 1}. \`${prompt}\`` for each prompt. */
  function PromptLine(i: nat, prompt: string): string {
    Decimal(i + 1) + ". `" + prompt + "`\n"
  }

  function PromptLines(prompts: seq<string>): string {
    if prompts == [] then ""
    else PromptLines(prompts[..|prompts| - 1]) + PromptLine(|prompts| - 1, prompts[|prompts| - 1])
  }

  function PromptsBlock(u: UseCase): string {
    if u.examplePrompts.Some? && |u.examplePrompts.value| > 0 then
      "**Example Prompts:**\n\n" + PromptLines(u.examplePrompts.value) + "\n"
    else ""
  }

  /** The section of the result at position `index`. */
  function Section(index: nat, u: UseCase): string {
    Heading(index, u)
    + CategoryBlock(u)
    + DescriptionLine(u)
    + ListLine(SurfacesLead, u.surfaces)
    + ListLine(ModesLead, u.modes)
    + RiskLine(u)
    + PromptsBlock(u)
    + ListLine(TagsLead, u.tags)
    + Rule
  }

  /** The sections of all results, numbered from 1. */
  function Sections(results: seq<UseCase>): string {
    if results == [] then ""
    else Sections(results[..|results| - 1]) + Section(|results| - 1, results[|results| - 1])
  }

  /** `exportAsMarkdown(results, query)`; the local time is passed in. */
  function ExportMarkdown(results: seq<UseCase>, query: string, generatedOn: string): string {
    Preamble(query, |results|, generatedOn) + Sections(results)
  }

  // ---------------------------------------------------------------------
  // Properties

  /** The document is the title, the query line, and the rest starting
      with the count line. */
  lemma ExportParts(results: seq<UseCase>, query: string, generatedOn: string)
    ensures ExportMarkdown(results, query, generatedOn)
         == Title + QueryLine(query) + (CountLine(|results|) + (GeneratedLine(generatedOn) + Rule + Sections(results)))
  {
    Regroup(Title, QueryLine(query), CountLine(|results|), GeneratedLine(generatedOn), Rule, Sections(results));
  }

  /** Regrouping step for `ExportParts`: the solver does not reassociate long
      concatenations on its own. */
  lemma Regroup(a: string, b: string, c: string, d: string, e: string, f: string)
    ensures a + b + c + d + e + f == a + b + (c + (d + e + f))
  {
  }

  /** The document starts with the title. */
  lemma StartsWithTitle(results: seq<UseCase>, query: string, generatedOn: string)
    ensures Title <= ExportMarkdown(results, query, generatedOn)
  {
    ExportParts(results, query, generatedOn);
    var rest := CountLine(|results|) + (GeneratedLine(generatedOn) + Rule + Sections(results));
    Split3(Title, QueryLine(query), rest);
  }

  /** `a` is a prefix of `a + b + c`, followed by `b + c`. */
  lemma Split3(a: string, b: string, c: string)
    ensures a <= a + b + c && (a + b + c)[|a|..] == b + c
  {
    assert (a + b + c)[|a|..] == b + c;
  }

  /** The query line follows the title exactly when the query is not empty. */
  lemma QueryLineIff(results: seq<UseCase>, query: string, generatedOn: string)
    ensures var md := ExportMarkdown(results, query, generatedOn);
      |Title| <= |md| && (QueryLead <= md[|Title|..] <==> query != "")
  {
    ExportParts(results, query, generatedOn);
    var rest := CountLine(|results|) + (GeneratedLine(generatedOn) + Rule + Sections(results));
    Split3(Title, QueryLine(query), rest);
    QueryLineStart(query, rest);
  }

  /** Before a text starting with `T`, the query line's lead is present
      exactly when the query is non-empty. Step for `QueryLineIff`. */
  lemma QueryLineStart(query: string, rest: string)
    requires |rest| > 0 && rest[0] == 'T'
    ensures QueryLead <= QueryLine(query) + rest <==> query != ""
  {
    if query != "" {
      Split3(QueryLead, query + "**\n\n", rest);
      assert QueryLine(query) + rest == QueryLead + (query + "**\n\n") + rest;
    } else {
      assert QueryLine(query) + rest == rest;
    }
  }

  /** The count line follows the query line, and its number reads back as
      the number of results. */
  lemma CountReadsBack(results: seq<UseCase>, query: string, generatedOn: string)
    ensures Title + QueryLine(query) + CountLine(|results|) <= ExportMarkdown(results, query, generatedOn)
    ensures IsDigits(Decimal(|results|)) && DecimalValue(Decimal(|results|)) == |results|
  {
    ExportParts(results, query, generatedOn);
    PrefixBeforeRest(Title + QueryLine(query), CountLine(|results|),
      GeneratedLine(generatedOn) + Rule + Sections(results));
    DecimalRoundTrip(|results|);
  }

  /** Regrouping step for `CountReadsBack`: the solver does not reassociate long
      concatenations on its own. */
  lemma PrefixBeforeRest(a: string, b: string, c: string)
    ensures a + b <= a + (b + c)
  {
    assert (a + (b + c))[..|a + b|] == a + b;
  }

  /** One more result adds its section at the end. */
  lemma SectionsStep(results: seq<UseCase>, i: nat)
    requires i < |results|
    ensures Sections(results[..i + 1]) == Sections(results[..i]) + Section(i, results[i])
  {
    assert results[..i + 1][..i] == results[..i];
  }

  /** Regrouping step for `ExportAsMarkdown`'s loop: the solver does not reassociate long
      concatenations on its own. */
  lemma Assoc(a: string, b: string, c: string)
    ensures a + b + c == a + (b + c)
  {
  }

  /** The sections of a prefix of the results are a prefix of the sections. */
  lemma {:induction false} SectionsPrefix(results: seq<UseCase>, k: nat)
    requires k <= |results|
    ensures Sections(results[..k]) <= Sections(results)
    decreases |results|
  {
    if k < |results| {
      var init := results[..|results| - 1];
      assert init[..k] == results[..k];
      SectionsPrefix(init, k);
    } else {
      assert results[..k] == results;
    }
  }

  /** Result `k` has its section, headed `## k+1. title`, right after the
      sections of the results before it; the number reads back as `k + 1`. */
  lemma HeadingOf(results: seq<UseCase>, query: string, generatedOn: string, k: nat)
    requires k < |results|
    ensures Preamble(query, |results|, generatedOn) + Sections(results[..k]) + Heading(k, results[k])
         <= ExportMarkdown(results, query, generatedOn)
    ensures IsDigits(Decimal(k + 1)) && DecimalValue(Decimal(k + 1)) == k + 1
  {
    var pre := Preamble(query, |results|, generatedOn);
    var before := Sections(results[..k]);
    SectionsPrefix(results, k + 1);
    SectionsStep(results, k);
    HeadingStartsSection(k, results[k]);
    PrefixWithin(pre, before, Heading(k, results[k]), Section(k, results[k]), Sections(results));
    DecimalRoundTrip(k + 1);
  }

  /** A section starts with its heading. */
  lemma HeadingStartsSection(index: nat, u: UseCase)
    ensures Heading(index, u) <= Section(index, u)
  {
    FirstOfNine(Heading(index, u), CategoryBlock(u), DescriptionLine(u), ListLine(SurfacesLead, u.surfaces),
      ListLine(ModesLead, u.modes), RiskLine(u), PromptsBlock(u), ListLine(TagsLead, u.tags), Rule);
  }

  /** Regrouping step for `HeadingStartsSection`: the solver does not reassociate long
      concatenations on its own. */
  lemma FirstOfNine(a: string, b: string, c: string, d: string, e: string, f: string,
                    g: string, h: string, i: string)
    ensures a <= a + b + c + d + e + f + g + h + i
  {
    assert a + b + c + d + e + f + g + h + i == a + (b + c + d + e + f + g + h + i);
  }

  /** `p + b + h` is a prefix of `p + all` when `b + s` is a prefix of `all`
      and `h` of `s`. */
  lemma PrefixWithin(p: string, b: string, h: string, s: string, all: string)
    requires h <= s && b + s <= all
    ensures p + b + h <= p + all
  {
    assert (p + all)[..|p + b + h|] == p + b + h by {
      assert all[..|b| + |h|] == b + h;
    }
  }

  /** With no category, no category line and hence no subcategory is printed;
      with both, the subcategory follows the category. */
  lemma SubcategoryOnlyWithCategory(u: UseCase)
    ensures !Truthy(u.category) ==> CategoryBlock(u) == ""
    ensures Truthy(u.category) && Truthy(u.subcategory) ==>
      CategoryBlock(u) == "**Category:** " + u.category.value + " > " + u.subcategory.value + "\n\n"
  {
  }

  // ---------------------------------------------------------------------
  // The source's string building

  /** The source's `markdown +=` steps and its loop over the results. */
  method ExportAsMarkdown(results: seq<UseCase>, query: string, generatedOn: string)
    returns (markdown: string)
    ensures markdown == ExportMarkdown(results, query, generatedOn)
  {
    markdown := StartDocument(query, |results|, generatedOn);
    assert results[..0] == [];
    assert markdown == Preamble(query, |results|, generatedOn) + Sections(results[..0]);
    var i := 0;
    while i < |results|
      invariant 0 <= i <= |results|
      invariant markdown == Preamble(query, |results|, generatedOn) + Sections(results[..i])
    {
      markdown := AppendSection(markdown, i, results[i]);
      SectionsStep(results, i);
      Assoc(Preamble(query, |results|, generatedOn), Sections(results[..i]), Section(i, results[i]));
      i := i + 1;
    }
    assert results[..i] == results;
  }

  /** The source's `markdown +=` steps before the loop. */
  method StartDocument(query: string, count: nat, generatedOn: string) returns (markdown: string)
    ensures markdown == Preamble(query, count, generatedOn)
  {
    markdown := Title;
    if query != "" {
      markdown := markdown + QueryLead + query + "**\n\n";
    }
    assert markdown == Title + QueryLine(query);
    markdown := markdown + CountLine(count);
    markdown := markdown + GeneratedLine(generatedOn);
    markdown := markdown + Rule;
  }

  /** The body of the source's `forEach` over the results, one block at a
      time. */
  method AppendSection(markdown: string, index: nat, u: UseCase) returns (md: string)
    ensures md == markdown + Section(index, u)
  {
    md := markdown + Heading(index, u);
    ghost var m1 := md;
    md := AppendCategory(md, u);
    ghost var m2 := md;
    md := md + DescriptionLine(u);
    ghost var m3 := md;
    md := AppendList(md, SurfacesLead, u.surfaces);
    ghost var m4 := md;
    md := AppendList(md, ModesLead, u.modes);
    ghost var m5 := md;
    md := AppendRisk(md, u);
    ghost var m6 := md;
    md := AppendPromptsBlock(md, u);
    ghost var m7 := md;
    md := AppendList(md, TagsLead, u.tags);
    AppendNine(markdown, m1, m2, m3, m4, m5, m6, m7, md,
      Heading(index, u), CategoryBlock(u), DescriptionLine(u), ListLine(SurfacesLead, u.surfaces),
      ListLine(ModesLead, u.modes), RiskLine(u), PromptsBlock(u), ListLine(TagsLead, u.tags), Rule);
    md := md + Rule;
  }

  /** Appending nine pieces one by one appends their concatenation. */
  lemma AppendNine(m0: string, m1: string, m2: string, m3: string, m4: string, m5: string,
                   m6: string, m7: string, m8: string,
                   a: string, b: string, c: string, d: string, e: string, f: string,
                   g: string, h: string, i: string)
    requires m1 == m0 + a && m2 == m1 + b && m3 == m2 + c && m4 == m3 + d
    requires m5 == m4 + e && m6 == m5 + f && m7 == m6 + g && m8 == m7 + h
    ensures m8 + i == m0 + (a + b + c + d + e + f + g + h + i)
  {
  }

  method AppendCategory(markdown: string, u: UseCase) returns (md: string)
    ensures md == markdown + CategoryBlock(u)
  {
    md := markdown;
    if Truthy(u.category) {
      md := md + "**Category:** " + u.category.value;
      if Truthy(u.subcategory) {
        md := md + " > " + u.subcategory.value;
      }
      md := md + "\n\n";
    }
  }

  /** The surfaces, modes and tags lines. */
  method AppendList(markdown: string, lead: string, o: Option<seq<string>>) returns (md: string)
    ensures md == markdown + ListLine(lead, o)
  {
    md := markdown;
    if o.Some? && |o.value| > 0 {
      md := md + lead + Join(o.value, ", ") + "\n\n";
    }
  }

  method AppendRisk(markdown: string, u: UseCase) returns (md: string)
    ensures md == markdown + RiskLine(u)
  {
    md := markdown;
    if Truthy(u.riskLevel) {
      md := md + "**Risk Level:** " + u.riskLevel.value + "\n\n";
    }
  }

  method AppendPromptsBlock(markdown: string, u: UseCase) returns (md: string)
    ensures md == markdown + PromptsBlock(u)
  {
    md := markdown;
    if u.examplePrompts.Some? && |u.examplePrompts.value| > 0 {
      md := md + "**Example Prompts:**\n\n";
      md := AppendPrompts(md, u.examplePrompts.value);
      md := md + "\n";
    }
  }

  /** The source's inner `forEach` over the example prompts. */
  method AppendPrompts(markdown: string, prompts: seq<string>) returns (md: string)
    ensures md == markdown + PromptLines(prompts)
  {
    md := markdown;
    var j := 0;
    while j < |prompts|
      invariant 0 <= j <= |prompts|
      invariant md == markdown + PromptLines(prompts[..j])
    {
      md := md + Decimal(j + 1) + ". `" + prompts[j] + "`\n";
      assert prompts[..j + 1][..j] == prompts[..j];
      j := j + 1;
    }
    assert prompts[..j] == prompts;
  }
}
