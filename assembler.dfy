/**
  `buildImprovedPrompt`: the Markdown prompt assembled from the results of the
  other stages. An opening role line is followed by eight headed sections, in a
  fixed order, and then by the original request as a quotation.
 */
module Assembler {
  import opened Text
  import opened Format
  import opened Segmenter
  import opened Classifier
  import opened Role
  import opened Clarity

  const MissionHeading := "## Mission"
  const ContextHeading := "## Situational Context"
  const ConstraintsHeading := "## Constraints & Risks to Track"
  const DeliverablesHeading := "## Expected Deliverables"
  const ApproachHeading := "## Suggested Approach"
  const GuardrailsHeading := "## Communication Guardrails"
  const ClarityHeading := "## Clarity Suggestions for the Requester"
  const RespondingHeading := "## When Responding"
  const OriginalHeading := "### Original Request"

  /** The headings, in the order the document has them. */
  const Headings := [MissionHeading, ContextHeading, ConstraintsHeading, DeliverablesHeading, ApproachHeading,
    GuardrailsHeading, ClarityHeading, RespondingHeading, OriginalHeading]

  /** A Markdown list item. */
  function BulletLine(text: string): string
  {
    "- " + text
  }

  /** A Markdown quotation line. */
  function QuoteLine(line: string): string
  {
    "> " + line
  }

  const NoObjective := "Clarify the user's primary goal before proposing a solution."
  const AskWhether := "Ask whether"
  const ContextPlaceholder :=
    BulletLine("No additional context provided. Confirm audience, tools, or environment as needed.")
  const ConstraintPlaceholder :=
    BulletLine(AskWhether + " there are timeline, tone, formatting, or tooling constraints that must be respected.")
  const DeliverablePlaceholder :=
    BulletLine("Recommend the most useful deliverable and describe why it aligns with the mission.")
  const ApproachPlaceholder :=
    BulletLine("Outline a clear plan or set of steps before presenting the final deliverable.")

  const VerifyItem :=
    "Verify key assumptions and ask clarifying questions when requirements feel ambiguous or incomplete."
  const ExplainItem :=
    "Explain how your response directly advances the stated mission and respects the constraints."
  const SurfaceItem :=
    "Surface any critical constraints (timeline, tone, length, dependencies) that should be confirmed."
  const SharePlanItem := "Share a recommended plan of attack before diving into detailed deliverables."

  const Responding := [
    BulletLine("Start with a succinct status summary that shows you understand the mission."),
    BulletLine("Provide the deliverables in a clear structure (headings, bullet lists, tables, or code blocks)."),
    BulletLine("Close with optional follow-up questions or suggestions to improve the outcome.")]

  const Divider := "---"
  const NoOriginal := QuoteLine("(no original text captured)")

  const PersonaLead := "You are an experienced "

  /** The persona sentence the prompt opens with. */
  function Persona(role: string): string
  {
    PersonaLead + role + "."
  }

  function RoleLine(role: string): string
  {
    Persona(role) + " Carefully study the request and craft a thorough, outcome-focused response."
  }

  /** `items.map((item) => `- ${formatBullet(item)}`)`. */
  function Bullets(items: seq<string>): seq<string>
  {
    seq(|items|, k requires 0 <= k < |items| => BulletLine(FormatBullet(items[k])))
  }

  /** A bucket's list items, or its placeholder when the bucket is empty. */
  function ItemsOr(items: seq<string>, placeholder: string): seq<string>
  {
    if |items| > 0 then Bullets(items) else [placeholder]
  }

  /** The mission line: the polished objective, or a request to clarify it. */
  function MissionLine(objective: string): string
  {
    BulletLine(if objective != [] then FormatBullet(PolishObjective(objective)) else NoObjective)
  }

  /** The communication checklist: two fixed items, the constraint item when
      the constraint section is a single item mentioning "Ask whether", and the
      plan item when there are no steps. */
  function Checklist(constraintItems: seq<string>, stepCount: nat): seq<string>
  {
    [VerifyItem, ExplainItem]
    + (if |constraintItems| == 1 && Contains(constraintItems[0], AskWhether) then [SurfaceItem] else [])
    + (if stepCount == 0 then [SharePlanItem] else [])
  }

  /** The checklist pushes of `buildImprovedPrompt`. */
  method BuildChecklist(constraintItems: seq<string>, stepCount: nat) returns (checklist: seq<string>)
    ensures checklist == Checklist(constraintItems, stepCount)
  {
    checklist := [VerifyItem, ExplainItem];
    if |constraintItems| == 1 && Contains(constraintItems[0], AskWhether) {
      checklist := checklist + [SurfaceItem];
    }
    if stepCount == 0 {
      checklist := checklist + [SharePlanItem];
    }
  }

  /** A heading, its lines, and the blank line that closes the section. */
  function Block(heading: string, lines: seq<string>): seq<string>
  {
    [heading] + lines + [""]
  }

  /** The three pushes that add one section. */
  method PushBlock(sections: seq<string>, heading: string, lines: seq<string>) returns (after: seq<string>)
    ensures after == sections + Block(heading, lines)
  {
    after := sections + [heading];
    after := after + lines;
    after := after + [""];
  }

  /** `lines.map((line) => `> ${line}`)`. */
  function Quoted(lines: seq<string>): seq<string>
  {
    seq(|lines|, k requires 0 <= k < |lines| => QuoteLine(lines[k]))
  }

  /** The quotation of the original request, or its placeholder when the
      request has no lines. */
  function QuoteBlock(lines: seq<string>): string
  {
    if |lines| == 0 then NoOriginal else Join(Quoted(lines), "\n")
  }

  /** The request's non-blank lines, trimmed. */
  function OriginalLines(raw: string): seq<string>
  {
    Lines(Trim(raw))
  }

  /** The document's lines, from the role, the classified sentences, the
      clarity suggestions and the original lines. */
  function Layout(role: string, c: Categories, suggestions: seq<string>, original: seq<string>): seq<string>
  {
    var constraintItems := ItemsOr(c.constraints, ConstraintPlaceholder);
    [RoleLine(role)] + [""]
    + Block(MissionHeading, [MissionLine(c.objective)])
    + Block(ContextHeading, ItemsOr(c.context + c.other, ContextPlaceholder))
    + Block(ConstraintsHeading, constraintItems)
    + Block(DeliverablesHeading, ItemsOr(c.outputs, DeliverablePlaceholder))
    + Block(ApproachHeading, ItemsOr(c.steps, ApproachPlaceholder))
    + Block(GuardrailsHeading, Bullets(Checklist(constraintItems, |c.steps|)))
    + Block(ClarityHeading, Bullets(suggestions))
    + Block(RespondingHeading, Responding)
    + [Divider] + [OriginalHeading] + [QuoteBlock(original)]
  }

  /** The `sections` pushes of `buildImprovedPrompt`. */
  method Assemble(role: string, c: Categories, suggestions: seq<string>, original: seq<string>)
    returns (sections: seq<string>)
    ensures sections == Layout(role, c, suggestions, original)
  {
    var contextSection := ItemsOr(c.context + c.other, ContextPlaceholder);
    var constraintItems := ItemsOr(c.constraints, ConstraintPlaceholder);
    var deliverables := ItemsOr(c.outputs, DeliverablePlaceholder);
    var approachItems := ItemsOr(c.steps, ApproachPlaceholder);
    var checklist := BuildChecklist(constraintItems, |c.steps|);
    sections := [];
    sections := sections + [RoleLine(role)];
    sections := sections + [""];
    assert sections == [RoleLine(role)] + [""];
    sections := PushBlock(sections, MissionHeading, [MissionLine(c.objective)]);
    sections := PushBlock(sections, ContextHeading, contextSection);
    sections := PushBlock(sections, ConstraintsHeading, constraintItems);
    sections := PushBlock(sections, DeliverablesHeading, deliverables);
    sections := PushBlock(sections, ApproachHeading, approachItems);
    sections := PushBlock(sections, GuardrailsHeading, Bullets(checklist));
    sections := PushBlock(sections, ClarityHeading, Bullets(suggestions));
    sections := PushBlock(sections, RespondingHeading, Responding);
    sections := sections + [Divider];
    sections := sections + [OriginalHeading];
    sections := sections + [QuoteBlock(original)];
  }

  /** The document's lines for a request. */
  function Document(raw: string): seq<string>
  {
    var sentences := SentencesOf(raw);
    Layout(InferExpertRole(raw), Classify(sentences), Suggestions(raw, sentences), OriginalLines(raw))
  }

  /** `buildImprovedPrompt(rawText)`. */
  function ImprovedPrompt(raw: string): (r: string)
    ensures r == if HasContent(raw) then Join(Document(raw), "\n") else raw
  {
    assert (Collapse(raw) == []) == !HasContent(raw) by {
      CollapseSpec(raw);
    }
    if Collapse(raw) == [] then raw else Join(Document(raw), "\n")
  }

  /** `buildImprovedPrompt(rawText)`: a request without content comes back
      unchanged; otherwise the stages run and the document is joined. */
  method BuildImprovedPrompt(raw: string) returns (prompt: string)
    ensures prompt == ImprovedPrompt(raw)
    ensures !HasContent(raw) ==> prompt == raw
  {
    CollapseSpec(raw);
    var cleaned := Collapse(raw);
    if cleaned == [] {
      return raw;
    }
    var sentences := SplitSentences(raw);
    var categories := ClassifySentences(sentences);
    var role := InferExpertRole(raw);
    var claritySuggestions := AnalyzeClarity(raw, sentences);
    var originalLines := OriginalLines(raw);
    var sections := Assemble(role, categories, claritySuggestions, originalLines);
    prompt := Join(sections, "\n");
  }
}

/** Properties of the assembled document. */
module AssemblerFacts {
  import opened Text
  import opened Format
  import opened Segmenter
  import opened Classifier
  import opened Role
  import opened Clarity
  import opened Assembler

  /** A bucket's section is the placeholder alone exactly when the bucket is
      empty or its one sentence formats to the placeholder's own text. */
  lemma PlaceholderIff(items: seq<string>, placeholder: string)
    ensures ItemsOr(items, placeholder) == [placeholder] <==>
      items == [] || (|items| == 1 && BulletLine(FormatBullet(items[0])) == placeholder)
    ensures |ItemsOr(items, placeholder)| == if items == [] then 1 else |items|
  {
    if |items| == 1 {
      assert Bullets(items) == [BulletLine(FormatBullet(items[0]))];
    }
  }

  lemma ChecklistItemsDistinct()
    ensures VerifyItem != SurfaceItem && ExplainItem != SurfaceItem && SharePlanItem != SurfaceItem
    ensures VerifyItem != SharePlanItem && ExplainItem != SharePlanItem
  {
    assert |VerifyItem| == 99 && |ExplainItem| == 92 && |SurfaceItem| == 97 && |SharePlanItem| == 76;
  }

  /** The constraint item is added exactly when the constraint section is a
      single line mentioning "Ask whether". */
  lemma SurfaceIff(constraintItems: seq<string>, stepCount: nat)
    ensures SurfaceItem in Checklist(constraintItems, stepCount) <==>
      |constraintItems| == 1 && Contains(constraintItems[0], AskWhether)
  {
    ChecklistItemsDistinct();
  }

  /** The plan item is added exactly when there are no steps. */
  lemma SharePlanIff(constraintItems: seq<string>, stepCount: nat)
    ensures SharePlanItem in Checklist(constraintItems, stepCount) <==> stepCount == 0
  {
    ChecklistItemsDistinct();
  }

  lemma ShiftOccurrence(prefix: string, s: string, t: string, i: nat)
    requires OccursAt(s, t, i)
    ensures OccursAt(prefix + s, t, |prefix| + i)
  {
    assert (prefix + s)[|prefix| + i..|prefix| + i + |t|] == s[i..i + |t|];
  }

  /** The constraint placeholder mentions "Ask whether". */
  lemma PlaceholderAsks()
    ensures Contains(ConstraintPlaceholder, AskWhether)
  {
    var rest := " there are timeline, tone, formatting, or tooling constraints that must be respected.";
    assert OccursAt(AskWhether + rest, AskWhether, 0) by {
      assert (AskWhether + rest)[..|AskWhether|] == AskWhether;
    }
    ShiftOccurrence("- ", AskWhether + rest, AskWhether, 0);
  }

  /** In terms of the constraint bucket: the constraint item is added when
      there are no constraints, and also when the one constraint's bullet
      mentions "Ask whether". */
  lemma SurfaceForConstraints(constraints: seq<string>, stepCount: nat)
    ensures SurfaceItem in Checklist(ItemsOr(constraints, ConstraintPlaceholder), stepCount) <==>
      constraints == [] || (|constraints| == 1 && Contains(BulletLine(FormatBullet(constraints[0])), AskWhether))
  {
    SurfaceIff(ItemsOr(constraints, ConstraintPlaceholder), stepCount);
    PlaceholderAsks();
    if |constraints| == 1 {
      assert ItemsOr(constraints, ConstraintPlaceholder)[0] == BulletLine(FormatBullet(constraints[0]));
    }
  }

  /** A single constraint that itself asks whether something holds brings the
      constraint item in although a constraint was found. */
  lemma SurfaceDespiteConstraint(constraint: string, stepCount: nat)
    requires Contains(FormatBullet(constraint), AskWhether)
    ensures SurfaceItem in Checklist(ItemsOr([constraint], ConstraintPlaceholder), stepCount)
  {
    var i :| 0 <= i <= |FormatBullet(constraint)| && OccursAt(FormatBullet(constraint), AskWhether, i);
    ShiftOccurrence("- ", FormatBullet(constraint), AskWhether, i);
    SurfaceForConstraints([constraint], stepCount);
  }

  /** Lines that open with `#`: the Markdown headings. */
  predicate IsHeading(line: string)
  {
    |line| > 0 && line[0] == '#'
  }

  /** The heading lines of a document, in order. */
  function HeadingLines(lines: seq<string>): seq<string>
  {
    if lines == [] then []
    else (if IsHeading(lines[0]) then [lines[0]] else []) + HeadingLines(lines[1..])
  }

  lemma {:induction false} HeadingLinesConcat(a: seq<string>, b: seq<string>)
    ensures HeadingLines(a + b) == HeadingLines(a) + HeadingLines(b)
  {
    if a == [] {
      assert a + b == b;
    } else {
      assert (a + b)[0] == a[0];
      assert (a + b)[1..] == a[1..] + b;
      HeadingLinesConcat(a[1..], b);
    }
  }

  lemma {:induction false} NoHeadingLines(lines: seq<string>)
    requires forall k :: 0 <= k < |lines| ==> !IsHeading(lines[k])
    ensures HeadingLines(lines) == []
  {
    if lines != [] {
      NoHeadingLines(lines[1..]);
    }
  }

  /** A section contributes its heading and nothing else to the heading lines. */
  lemma BlockHeading(heading: string, lines: seq<string>)
    requires IsHeading(heading)
    requires forall k :: 0 <= k < |lines| ==> !IsHeading(lines[k])
    ensures HeadingLines(Block(heading, lines)) == [heading]
  {
    NoHeadingLines(lines);
    HeadingLinesConcat([heading], lines);
    HeadingLinesConcat([heading] + lines, [""]);
  }

  lemma BulletsAreNotHeadings(items: seq<string>)
    ensures forall k :: 0 <= k < |Bullets(items)| ==> !IsHeading(Bullets(items)[k])
  {
  }

  lemma SectionNotHeadings(items: seq<string>, placeholder: string)
    requires !IsHeading(placeholder)
    ensures forall k :: 0 <= k < |ItemsOr(items, placeholder)| ==> !IsHeading(ItemsOr(items, placeholder)[k])
  {
    BulletsAreNotHeadings(items);
  }

  /** The quotation opens with `>`. */
  lemma QuoteNotHeading(original: seq<string>)
    ensures !IsHeading(QuoteBlock(original))
  {
    if |original| > 0 {
      JoinStartsWithFirst(Quoted(original), "\n");
      assert QuoteBlock(original)[0] == Quoted(original)[0][0];
    }
  }

  /** Heading lines of the document's twelve parts, taken together. */
  lemma PartsHeadings(opening: seq<string>, s1: seq<string>, s2: seq<string>, s3: seq<string>,
    s4: seq<string>, s5: seq<string>, s6: seq<string>, s7: seq<string>, s8: seq<string>,
    divider: seq<string>, heading: seq<string>, quote: seq<string>)
    ensures HeadingLines(opening + s1 + s2 + s3 + s4 + s5 + s6 + s7 + s8 + divider + heading + quote) ==
      HeadingLines(opening) + HeadingLines(s1) + HeadingLines(s2) + HeadingLines(s3) + HeadingLines(s4)
      + HeadingLines(s5) + HeadingLines(s6) + HeadingLines(s7) + HeadingLines(s8) + HeadingLines(divider)
      + HeadingLines(heading) + HeadingLines(quote)
  {
    HeadingLinesConcat(opening, s1);
    HeadingLinesConcat(opening + s1, s2);
    HeadingLinesConcat(opening + s1 + s2, s3);
    HeadingLinesConcat(opening + s1 + s2 + s3, s4);
    HeadingLinesConcat(opening + s1 + s2 + s3 + s4, s5);
    HeadingLinesConcat(opening + s1 + s2 + s3 + s4 + s5, s6);
    HeadingLinesConcat(opening + s1 + s2 + s3 + s4 + s5 + s6, s7);
    HeadingLinesConcat(opening + s1 + s2 + s3 + s4 + s5 + s6 + s7, s8);
    HeadingLinesConcat(opening + s1 + s2 + s3 + s4 + s5 + s6 + s7 + s8, divider);
    HeadingLinesConcat(opening + s1 + s2 + s3 + s4 + s5 + s6 + s7 + s8 + divider, heading);
    HeadingLinesConcat(opening + s1 + s2 + s3 + s4 + s5 + s6 + s7 + s8 + divider + heading, quote);
  }

  /** A document of twelve parts, of which only the eight sections and the
      original-request heading hold a heading each, has the fixed headings. */
  lemma HeadingsOfParts(opening: seq<string>, s1: seq<string>, s2: seq<string>,
    s3: seq<string>, s4: seq<string>, s5: seq<string>, s6: seq<string>, s7: seq<string>, s8: seq<string>,
    divider: seq<string>, heading: seq<string>, quote: seq<string>)
    requires HeadingLines(opening) == [] && HeadingLines(divider) == [] && HeadingLines(quote) == []
    requires HeadingLines(s1) == [MissionHeading] && HeadingLines(s2) == [ContextHeading]
    requires HeadingLines(s3) == [ConstraintsHeading] && HeadingLines(s4) == [DeliverablesHeading]
    requires HeadingLines(s5) == [ApproachHeading] && HeadingLines(s6) == [GuardrailsHeading]
    requires HeadingLines(s7) == [ClarityHeading] && HeadingLines(s8) == [RespondingHeading]
    requires HeadingLines(heading) == [OriginalHeading]
    ensures HeadingLines(opening + s1 + s2 + s3 + s4 + s5 + s6 + s7 + s8 + divider + heading + quote) == Headings
  {
    PartsHeadings(opening, s1, s2, s3, s4, s5, s6, s7, s8, divider, heading, quote);
    NineSingles(HeadingLines(opening), HeadingLines(s1), HeadingLines(s2), HeadingLines(s3), HeadingLines(s4),
      HeadingLines(s5), HeadingLines(s6), HeadingLines(s7), HeadingLines(s8), HeadingLines(divider),
      HeadingLines(heading), HeadingLines(quote));
  }

  lemma NineSingles(opening: seq<string>, s1: seq<string>, s2: seq<string>, s3: seq<string>,
    s4: seq<string>, s5: seq<string>, s6: seq<string>, s7: seq<string>, s8: seq<string>,
    divider: seq<string>, heading: seq<string>, quote: seq<string>)
    requires opening == [] && divider == [] && quote == []
    requires |s1| == 1 && |s2| == 1 && |s3| == 1 && |s4| == 1 && |s5| == 1
    requires |s6| == 1 && |s7| == 1 && |s8| == 1 && |heading| == 1
    ensures opening + s1 + s2 + s3 + s4 + s5 + s6 + s7 + s8 + divider + heading + quote ==
      [s1[0], s2[0], s3[0], s4[0], s5[0], s6[0], s7[0], s8[0], heading[0]]
  {
  }

  /** The opening role line and the blank line after it are not headings. */
  lemma OpeningHeadings(role: string)
    ensures HeadingLines([RoleLine(role)] + [""]) == []
  {
    assert RoleLine(role)[0] == PersonaLead[0];
    NoHeadingLines([RoleLine(role)] + [""]);
  }

  /** The five bucket sections each contribute their heading alone. */
  lemma BucketHeadings(c: Categories)
    ensures HeadingLines(Block(MissionHeading, [MissionLine(c.objective)])) == [MissionHeading]
    ensures HeadingLines(Block(ContextHeading, ItemsOr(c.context + c.other, ContextPlaceholder))) == [ContextHeading]
    ensures HeadingLines(Block(ConstraintsHeading, ItemsOr(c.constraints, ConstraintPlaceholder))) ==
      [ConstraintsHeading]
    ensures HeadingLines(Block(DeliverablesHeading, ItemsOr(c.outputs, DeliverablePlaceholder))) ==
      [DeliverablesHeading]
    ensures HeadingLines(Block(ApproachHeading, ItemsOr(c.steps, ApproachPlaceholder))) == [ApproachHeading]
  {
    BlockHeading(MissionHeading, [MissionLine(c.objective)]);
    SectionNotHeadings(c.context + c.other, ContextPlaceholder);
    BlockHeading(ContextHeading, ItemsOr(c.context + c.other, ContextPlaceholder));
    SectionNotHeadings(c.constraints, ConstraintPlaceholder);
    BlockHeading(ConstraintsHeading, ItemsOr(c.constraints, ConstraintPlaceholder));
    SectionNotHeadings(c.outputs, DeliverablePlaceholder);
    BlockHeading(DeliverablesHeading, ItemsOr(c.outputs, DeliverablePlaceholder));
    SectionNotHeadings(c.steps, ApproachPlaceholder);
    BlockHeading(ApproachHeading, ItemsOr(c.steps, ApproachPlaceholder));
  }

  /** The checklist, clarity and closing-advice sections each contribute their
      heading alone. */
  lemma GuidanceHeadings(checklist: seq<string>, suggestions: seq<string>)
    ensures HeadingLines(Block(GuardrailsHeading, Bullets(checklist))) == [GuardrailsHeading]
    ensures HeadingLines(Block(ClarityHeading, Bullets(suggestions))) == [ClarityHeading]
  {
    BulletsAreNotHeadings(checklist);
    BlockHeading(GuardrailsHeading, Bullets(checklist));
    BulletsAreNotHeadings(suggestions);
    BlockHeading(ClarityHeading, Bullets(suggestions));
  }

  lemma RespondingHeadings()
    ensures HeadingLines(Block(RespondingHeading, Responding)) == [RespondingHeading]
  {
    BlockHeading(RespondingHeading, Responding);
  }

  /** The closing divider and quotation are not headings; the original-request
      heading is. */
  lemma ClosingHeadings(original: seq<string>)
    ensures HeadingLines([Divider]) == [] && HeadingLines([QuoteBlock(original)]) == []
    ensures HeadingLines([OriginalHeading]) == [OriginalHeading]
  {
    QuoteNotHeading(original);
    NoHeadingLines([Divider]);
    NoHeadingLines([QuoteBlock(original)]);
    assert [OriginalHeading][1..] == [];
  }

  /** The document's headings are the nine fixed headings, in the fixed order,
      whatever the classified sentences, suggestions and original lines. */
  lemma HeadingsInOrder(role: string, c: Categories, suggestions: seq<string>, original: seq<string>)
    ensures HeadingLines(Layout(role, c, suggestions, original)) == Headings
  {
    var constraintItems := ItemsOr(c.constraints, ConstraintPlaceholder);
    OpeningHeadings(role);
    BucketHeadings(c);
    GuidanceHeadings(Checklist(constraintItems, |c.steps|), suggestions);
    RespondingHeadings();
    ClosingHeadings(original);
    HeadingsOfParts([RoleLine(role)] + [""],
      Block(MissionHeading, [MissionLine(c.objective)]),
      Block(ContextHeading, ItemsOr(c.context + c.other, ContextPlaceholder)),
      Block(ConstraintsHeading, constraintItems),
      Block(DeliverablesHeading, ItemsOr(c.outputs, DeliverablePlaceholder)),
      Block(ApproachHeading, ItemsOr(c.steps, ApproachPlaceholder)),
      Block(GuardrailsHeading, Bullets(Checklist(constraintItems, |c.steps|))),
      Block(ClarityHeading, Bullets(suggestions)),
      Block(RespondingHeading, Responding),
      [Divider], [OriginalHeading], [QuoteBlock(original)]);
  }

  /** A joined list starts with whatever its first part starts with. */
  lemma JoinKeepsPrefix(parts: seq<string>, sep: string, prefix: string)
    requires |parts| >= 1 && StartsWith(parts[0], prefix)
    ensures StartsWith(Join(parts, sep), prefix)
  {
    JoinStartsWithFirst(parts, sep);
    var joined := Join(parts, sep);
    assert joined[..|prefix|] == joined[..|parts[0]|][..|prefix|];
  }

  lemma ConcatStartsWith(a: string, b: string)
    ensures StartsWith(a + b, a)
  {
    assert (a + b)[..|a|] == a;
  }

  lemma FirstOfParts(opening: seq<string>, s1: seq<string>, s2: seq<string>,
    s3: seq<string>, s4: seq<string>, s5: seq<string>, s6: seq<string>, s7: seq<string>, s8: seq<string>,
    divider: seq<string>, heading: seq<string>, quote: seq<string>)
    requires opening != []
    ensures var doc := opening + s1 + s2 + s3 + s4 + s5 + s6 + s7 + s8 + divider + heading + quote;
      |doc| > 0 && doc[0] == opening[0]
  {
  }

  /** The document opens with the persona sentence for the role. */
  lemma OpensWithPersona(role: string, c: Categories, suggestions: seq<string>, original: seq<string>)
    ensures StartsWith(Join(Layout(role, c, suggestions, original), "\n"), Persona(role))
  {
    var constraintItems := ItemsOr(c.constraints, ConstraintPlaceholder);
    FirstOfParts([RoleLine(role)] + [""],
      Block(MissionHeading, [MissionLine(c.objective)]),
      Block(ContextHeading, ItemsOr(c.context + c.other, ContextPlaceholder)),
      Block(ConstraintsHeading, constraintItems),
      Block(DeliverablesHeading, ItemsOr(c.outputs, DeliverablePlaceholder)),
      Block(ApproachHeading, ItemsOr(c.steps, ApproachPlaceholder)),
      Block(GuardrailsHeading, Bullets(Checklist(constraintItems, |c.steps|))),
      Block(ClarityHeading, Bullets(suggestions)),
      Block(RespondingHeading, Responding),
      [Divider], [OriginalHeading], [QuoteBlock(original)]);
    ConcatStartsWith(Persona(role), RoleLine(role)[|Persona(role)|..]);
    JoinKeepsPrefix(Layout(role, c, suggestions, original), "\n", Persona(role));
  }

  predicate SingleLine(s: string)
  {
    forall j :: 0 <= j < |s| ==> !IsNewline(s[j])
  }

  /** The pieces of a split at newlines hold no newline. */
  lemma {:induction false} SplitPiecesSingleLine(s: string)
    ensures forall k :: 0 <= k < |SplitWhere(s, IsNewline)| ==> SingleLine(SplitWhere(s, IsNewline)[k])
  {
    if s != [] {
      SplitPiecesSingleLine(s[1..]);
      var rest := SplitWhere(s[1..], IsNewline);
      var parts := SplitWhere(s, IsNewline);
      forall k | 0 <= k < |parts|
        ensures SingleLine(parts[k])
      {
        if IsNewline(s[0]) {
          if k > 0 {
            assert parts[k] == rest[k - 1];
          }
        } else if k == 0 {
          forall j | 0 <= j < |parts[0]|
            ensures !IsNewline(parts[0][j])
          {
            if j > 0 {
              assert parts[0][j] == rest[0][j - 1];
            }
          }
        } else {
          assert parts[k] == rest[k];
        }
      }
    }
  }

  lemma TrimSingleLine(s: string)
    requires SingleLine(s)
    ensures SingleLine(Trim(s))
  {
    var a := SpaceRunEnd(s, 0);
    var t := Trim(s);
    forall j | 0 <= j < |t|
      ensures !IsNewline(t[j])
    {
      assert t[j] == s[a + j];
    }
  }

  /** The original lines are non-empty, start with a visible character and
      hold no newline; there are some exactly when the request has content. */
  lemma OriginalLinesShape(raw: string)
    ensures forall k :: 0 <= k < |OriginalLines(raw)| ==>
      OriginalLines(raw)[k] != [] && !IsSpace(OriginalLines(raw)[k][0]) && SingleLine(OriginalLines(raw)[k])
    ensures OriginalLines(raw) != [] <==> HasContent(raw)
  {
    var text := Trim(raw);
    var pieces := SplitWhere(text, IsNewline);
    var trimmed := TrimAll(pieces);
    LinesAreTrimmed(text);
    SplitPiecesSingleLine(text);
    forall k | 0 <= k < |OriginalLines(raw)|
      ensures SingleLine(OriginalLines(raw)[k])
    {
      NonEmptyFrom(trimmed, k);
      var j :| 0 <= j < |trimmed| && trimmed[j] == OriginalLines(raw)[k];
      TrimAllAt(pieces, j);
      TrimSingleLine(pieces[j]);
    }
    TrimKeepsVisible(raw);
    TrimEmptyIff(raw);
    if text == [] {
      assert pieces == [[]];
      assert trimmed == [Trim([])];
    }
    if OriginalLines(raw) == [] {
      NoLinesBlank(text);
    }
  }

  /** Quoting lines without newlines and joining them at newlines gives back
      one `> ` line per line. */
  lemma QuoteBlockLines(lines: seq<string>)
    requires lines != []
    requires forall k :: 0 <= k < |lines| ==> SingleLine(lines[k])
    ensures SplitWhere(QuoteBlock(lines), IsNewline) == Quoted(lines)
  {
    var quoted := Quoted(lines);
    forall k | 0 <= k < |quoted|
      ensures forall j :: 0 <= j < |quoted[k]| ==> !IsNewline(quoted[k][j])
    {
      forall j | 0 <= j < |quoted[k]|
        ensures !IsNewline(quoted[k][j])
      {
        if j >= 2 {
          assert quoted[k][j] == lines[k][j - 2];
        }
      }
    }
    SplitJoinLines(quoted);
  }

  /** For a request with content the closing block is never the placeholder:
      its lines are the request's non-blank lines, trimmed, each behind `> `. */
  lemma QuotedRequest(raw: string)
    requires HasContent(raw)
    ensures OriginalLines(raw) != []
    ensures SplitWhere(QuoteBlock(OriginalLines(raw)), IsNewline) == Quoted(OriginalLines(raw))
  {
    OriginalLinesShape(raw);
    QuoteBlockLines(OriginalLines(raw));
  }
}
