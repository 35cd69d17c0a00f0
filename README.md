# Prompty prompt builder, modelled in Dafny

Prompty is a browser extension. It turns a short, informal request written in
an editable text field of a web page (a text area, a text input or an
editable element) into a structured prompt. This project models the text pipeline
behind that in `src/content.js`:

- `splitSentences` cuts the request into cleaned sentences.
- `classifySentences` takes the first sentence as the objective and sorts the
  others into five buckets by keyword tests.
- `inferExpertRole` picks a persona from keyword groups.
- `analyzeClarity` runs seven vagueness checks and collects their messages
  without repetition, with a fallback message when none fires.
- `formatSentence`, `formatBullet` and `polishObjective` tidy single lines.
- `buildImprovedPrompt` assembles the Markdown document from all of the above.
- `clamp` is the arithmetic helper of the floating button's placement.

The source's loops and list pushes are methods proved against specification
functions:

- `Segmenter.SplitSentences` and `Segmenter.GatherLines`
- `Classifier.ClassifySentences`
- `Clarity.AnalyzeClarity`, built from `AddSuggestion`, `Apply` and `Collect`,
  which thread the suggestion list and the `seen` set
- `Assembler.BuildChecklist`, `Assembler.PushBlock`, `Assembler.Assemble` and
  `Assembler.BuildImprovedPrompt`

The expression-only helpers are functions. Properties of the results are
lemmas in the same module, or in the `ClarityFacts` and `AssemblerFacts`
modules.

The regular expressions the pipeline uses are modelled in `Patterns`. It has
literal alternatives with optional `\b` anchors at either end, tried in source
order at each position from the left, as a backtracking matcher would. It
also has the two structured patterns of `analyzeClarity` (indefinite quantity,
verb plus pronoun) and the anchored filler phrases of `polishObjective`.
Strings are `seq<char>`. Case-insensitive matching and `toLowerCase` are ASCII
case folding.

Files:

- `wrappers.dfy`: `Option`.
- `text.dfy`: trim, white-space collapsing, split, join, filter.
- `patterns.dfy`: the matcher.
- `format.dfy`: the line formatters and `clamp`.
- `segmenter.dfy`: `splitSentences`.
- `classifier.dfy`: `classifySentences`.
- `role.dfy`: `inferExpertRole`.
- `clarity.dfy`: `analyzeClarity`.
- `assembler.dfy`: `buildImprovedPrompt`.

## Model

| member | source | states |
|---|---|---|
| Text.TrimKeepsVisible | src/content.js:322 | `trim` removes only white space: the visible characters of the result are those of the input |
| Text.Trim | src/content.js:322 | a trimmed string is no longer than the input, and is empty or starts and ends with a visible character |
| Text.TrimClean | src/content.js:499 | a string that neither starts nor ends with white space is its own trim |
| Text.TrimEmptyIff | src/content.js:322-323 | trimming gives the empty string exactly when the input has no visible character |
| Text.Squeeze | src/content.js:352 | the result is empty exactly when the input is, and starts with white space exactly when the input does |
| Text.SqueezeShape | src/content.js:352 | after `replace(/\s+/g, ' ')` no two white-space characters are adjacent and every one left is a plain space |
| Text.SqueezeKeepsVisible | src/content.js:352 | collapsing white-space runs keeps every visible character, in order |
| Text.CollapseSpec | src/content.js:518 | the collapsed-and-trimmed text is clean, keeps the visible characters, and is empty exactly when the input has no content |
| Text.JoinSplitLines | src/content.js:604 | splitting at newlines and joining with newlines gives back the text |
| Text.SplitJoinLines | src/content.js:604 | lines without newlines, joined with `\n`, split back into the same lines |
| Text.SplitNoSeparator | src/content.js:333 | a string without a newline splits into itself alone |
| Text.SplitKeepsContent | src/content.js:448 | splitting a text with content at white space leaves at least one piece with content |
| Text.NonEmptyNil | src/content.js:335 | `filter(Boolean)` returns nothing exactly when every string is empty |
| Text.NonEmptyFrom | src/content.js:342 | every string the filter keeps comes from the input, and none is empty |
| Text.TrimAllAt | src/content.js:334 | `map(trim)` trims each element in place and keeps the length |
| Text.CollapseAllAt | src/content.js:352 | the final `map` collapses each sentence in place and keeps the length |
| Patterns.FirstKeywordSpec | src/content.js:368 | at one position the alternation picks the first alternative, in source order, that matches there, and none when no alternative matches |
| Patterns.SearchFromSpec | src/content.js:409 | `match` returns the leftmost position where the pattern matches, and nothing when it matches nowhere |
| Patterns.LeftmostSpec | src/content.js:409 | scanning positions from the left stops at the first one where a match starts, and finds none exactly when no position has one |
| Patterns.AnyOfTest | src/content.js:375 | `test` on an alternation holds exactly when some alternative occurs somewhere, with its word boundaries |
| Patterns.QuantityEndStep | src/content.js:431 | at one position the quantifier alternation tries `a few`, `a couple`, `several`, `some` in order: one that fits (word boundary before it, white space after it, then a letter run that no excluded word opens) decides and the match ends after that run, otherwise the next one is tried |
| Patterns.QuantityEndMisses | src/content.js:431 | the quantity pattern fails at a position exactly when no quantifier fits there |
| Patterns.QuantityEndSpec | src/content.js:431 | a quantity match at a position is decided by the first quantifier that fits, and ends after the word that follows its white space; there is none exactly when no quantifier fits |
| Patterns.ActionGroupsStep | src/content.js:439 | at one position the verb alternation tries the verbs in order: one that fits (word boundary before it, white space after it, then an object with its trailing word boundary) decides with the first such object, otherwise the next verb is tried |
| Patterns.ActionGroupsMisses | src/content.js:439 | the verb-and-object pattern fails at a position exactly when no verb fits there |
| Patterns.ActionGroupsSpec | src/content.js:439 | a verb-and-object match is decided by the first verb that fits; the verb group spans that verb and the object group starts after the white space that follows it; there is none exactly when no verb fits |
| Patterns.ActionObjectSpec | src/content.js:439 | the object group spans the first object, in source order, that matches where the group starts |
| Patterns.ActionMatchHasGroups | src/content.js:439-445 | a match of a verb-and-object pattern always has both capture groups |
| Patterns.PhraseOpensAt | src/content.js:500-505 | a phrase whose words open the text in any letter case, each followed by white space, matches through the white space after its last word |
| Patterns.PhraseMisses | src/content.js:500-505 | a phrase whose first word does not occur at the position does not match there |
| Patterns.SingleWordPhrase | src/content.js:500-505 | a one-word phrase matches exactly when the word opens the text in any letter case and white space follows it, and then it takes the whole white-space run |
| Patterns.LetterRunEnd | src/content.js:431 | the greedy `[a-z]+` run with the `i` flag stops at the first non-letter |
| Format.StripBullet | src/content.js:324 | a line that does not start with a list marker is unchanged; one that does loses exactly the marker and the white space after it: its visible text is the marker followed by the result's, and the result is a tail of the line that does not start with white space |
| Format.EnsureTerminal | src/content.js:325-327 | the result ends in `. ! ? )`, a `.` is appended only when the text did not, and nothing else changes |
| Format.FormatSentence | src/content.js:320-329 | the formatted sentence is empty exactly when the input has no content, and otherwise ends in terminal punctuation |
| Format.FormatSentenceKeepsText | src/content.js:320-329 | the sentence's visible text is the result's with the leading list marker of the trimmed sentence, if there is one, put back in front, and with or without one added final `.` |
| Format.FormatBullet | src/content.js:512-515 | a bullet is the formatted sentence without one final `.` and is otherwise equal to it |
| Format.StripLeading | src/content.js:500-504 | removing a leading filler phrase leaves a tail of the text |
| Format.ReplaceLeadingMake | src/content.js:505 | the text changes exactly when it starts with "make", in any letter case, followed by white space, and then that word and its white space become `Create ` |
| Format.PolishObjective | src/content.js:497-510 | the empty objective stays empty, and any other ends in terminal punctuation |
| Format.PolishKeepsTail | src/content.js:497-510 | polishing removes only a prefix of the trimmed request: the result is a tail of it, possibly after `Create `, and then the terminal punctuation |
| Format.PolishPlainRequest | src/content.js:500-509 | a request with no filler phrase and no leading "make" is only trimmed and punctuated |
| Format.FillersUnambiguous | src/content.js:500-504 | the alternatives within each word group of the filler phrases differ at some letter, so a word is recognised one way only |
| Format.StripLeadingOpens | src/content.js:500-504 | a filler phrase that opens the text, in any letter case and with any white space after each word, is removed together with that white space, leaving exactly the rest |
| Format.StripLeadingMisses | src/content.js:500-504 | a text that does not start with any first word of the phrase is left unchanged |
| Format.StripPlease | src/content.js:500 | "please" is removed, with the white space after it, exactly when it opens the text in any letter case and white space follows it |
| Format.StripPleaseWord | src/content.js:500 | "Please " before a text that starts visibly is removed |
| Format.StripCouldYou | src/content.js:501 | "Could you " before a text that starts visibly is removed |
| Format.MakePassesFillers | src/content.js:501-504 | a text opening with "make" passes the question, need and help fillers unchanged |
| Format.MakeBecomesCreate | src/content.js:505 | "make X" becomes "Create X" |
| Format.PoliteMakeRequest | src/content.js:497-510 | "Please make X" is polished to "Create X", with a `.` added unless X already ends with terminal punctuation |
| Placement.Clamp | src/content.js:171-173 | `Math.min(Math.max(value, min), max)`: the result is within the bounds when they are ordered, is the value when it lies between them, and is `max` when the bounds cross |
| Segmenter.FirstBoundary | src/content.js:340 | the leftmost place where the sentence-boundary pattern matches, with no match before it, or no match at all |
| Segmenter.PiecesRoundTrip | src/content.js:340 | the pieces of the split, glued back with the white space they were cut at, give back the line |
| Segmenter.PiecesLastGap | src/content.js:340 | the last piece has no white space cut after it: the split drops nothing at the end of the line |
| Segmenter.PiecesCuts | src/content.js:340 | every cut removes a non-empty white-space run that follows `. ! ?` |
| Segmenter.PiecesStarts | src/content.js:340 | every piece after the first starts with an upper-case letter or a digit |
| Segmenter.LinesAreTrimmed | src/content.js:332-335 | the lines are non-empty and start with a visible character |
| Segmenter.NoLinesBlank | src/content.js:332-335 | a text without lines is blank |
| Segmenter.CollapsedAreClean | src/content.js:352 | the collapsed, filtered sentences are non-empty and clean |
| Segmenter.SentencesAreClean | src/content.js:331-353 | every sentence returned is non-empty, has no white space at either end, and only single plain spaces inside |
| Segmenter.GatherLines | src/content.js:337-348 | the loop over the lines pushes exactly the pieces of each line in line order, or the cleaned line when it has no pieces |
| Segmenter.SplitSentences | src/content.js:331-353 | the method returns the specified sentences, whose properties the lemmas state |
| Segmenter.LineSentencesContent | src/content.js:338-347 | a line that is only a marker pushes one empty string; any other line pushes pieces, one of which has content |
| Segmenter.GatherContent | src/content.js:337-348 | the loop pushes something for each line, and pushes content exactly when some line has text after its marker |
| Segmenter.CollapsedContent | src/content.js:352 | the final filter keeps something exactly when some gathered string has content |
| Segmenter.SentencesNonEmptyIff | src/content.js:331-353 | `splitSentences` returns a sentence exactly when some line has text after its list marker |
| Segmenter.BulletOnlyYieldsNothing | src/content.js:338-352 | a request that is only a list marker yields no sentence: the loop pushes the empty cleaned line at :344, so the :350 fallback does not run, and the final filter at :352 removes it |
| Classifier.ClassifySentences | src/content.js:355-393 | the loop builds exactly the specified record, whose partition and order properties the lemmas state |
| Classifier.SelectCount | src/content.js:373-392 | each sentence occurs in the five selections together as often as in the input |
| Classifier.SelectPartition | src/content.js:373-392 | the five selections are a permutation of the input |
| Classifier.ClassifyPartition | src/content.js:367-392 | the five buckets together are a permutation of the sentences after the first: nothing is lost or duplicated |
| Classifier.SelectMembership | src/content.js:373-391 | a sentence is selected for a bucket exactly when it is in the input and the test sends it there |
| Classifier.SelectKeepsOrder | src/content.js:373-392 | a selection is a subsequence of its input |
| Classifier.ClassifyKeepsOrder | src/content.js:373-392 | every bucket keeps its sentences in their original order |
| Classifier.ClassifyMembership | src/content.js:368-391 | a sentence is in a bucket exactly when it passes that bucket's test and fails every test tried before it (constraint, output, step, context, then other) |
| Classifier.ClassifyObjective | src/content.js:364-366 | the objective is the first sentence, and an empty input gives the empty record |
| Role.InferExpertRole | src/content.js:468-495 | the role is always one of the nine labels |
| Role.FirstMatch | src/content.js:468-495 | the lookup returns the role of the first rule that matches, after none of the earlier ones, or the fallback when none matches |
| Role.ChainIsTableLookup | src/content.js:468-495 | the chain of eight tests is a first-match lookup in the role table |
| Role.RulesAvoidFallback | src/content.js:494 | no rule selects the fallback role |
| Role.FirstMatchingRuleWins | src/content.js:468-495 | when rule `k` matches the lower-cased text and no earlier rule does, the role is rule `k`'s |
| Role.FallbackIffNoMatch | src/content.js:494 | the fallback role is chosen exactly when no keyword group occurs |
| Clarity.NeedingSubjects | src/content.js:453-456 | a sentence is kept exactly when it is one of the input's and needs a subject, and the filter keeps at most as many sentences as it is given |
| Clarity.ReferentCheck | src/content.js:439-445 | the verb-and-pronoun check proposes a message exactly when its pattern matches the request |
| Clarity.WordCount | src/content.js:448 | the word count is zero exactly when the request has no visible character |
| Clarity.Fired | src/content.js:408-459 | there are at most as many messages as checks |
| Clarity.AddSuggestion | src/content.js:400-406 | the closure appends a message that is non-empty and not yet seen, and `seen` stays the set of the list's elements |
| Clarity.StepSpec | src/content.js:400-459 | running one more check extends the collected list by that check's `addSuggestion` |
| Clarity.SevenSteps | src/content.js:408-463 | the seven checks run in turn give the specified outcome, or the fallback when nothing was added |
| Clarity.Apply | src/content.js:410-414 | one check's message, if it fired, goes through `addSuggestion`, and `seen` stays in step |
| Clarity.Collect | src/content.js:408-463 | the seven `addSuggestion` calls and the fallback push give the de-duplicated fired messages, or the fallback alone |
| Clarity.AnalyzeClarity | src/content.js:396-466 | the method returns the specified suggestions, whose properties the lemmas in `ClarityFacts` state |
| ClarityFacts.FiredMember | src/content.js:408-459 | a message is among the fired ones exactly when some check proposed it |
| ClarityFacts.FiredNoDup | src/content.js:408-459 | checks proposing pairwise different messages give a list without repetition |
| ClarityFacts.DedupSpec | src/content.js:400-406 | `addSuggestion` keeps the list free of repetitions, and it holds exactly the non-empty messages offered |
| ClarityFacts.DedupKeepsDistinct | src/content.js:400-406 | distinct non-empty messages all pass through `addSuggestion` unchanged |
| ClarityFacts.SuggestionsAreDistinct | src/content.js:396-466 | the result is never empty and never repeats a message |
| ClarityFacts.MarkUnique | src/content.js:411-462 | each message can be told apart by its closing characters: no message carries the mark of two checks |
| ClarityFacts.ChecksMarked | src/content.js:408-459 | each check's message, when it fires, carries that check's mark |
| ClarityFacts.MarkedDistinct | src/content.js:408-462 | two checks never propose the same message, and none proposes the fallback text |
| ClarityFacts.MarkedNothingDropped | src/content.js:400-459 | de-duplication never drops a message of marked checks |
| ClarityFacts.NothingDropped | src/content.js:396-459 | every check that fires contributes its own message, in check order |
| ClarityFacts.MarkedFallback | src/content.js:461-463 | for marked checks, the fallback is present exactly when no check fired |
| ClarityFacts.FallbackIffNothingFired | src/content.js:461-463 | the fallback message is present exactly when none of the seven checks fired |
| ClarityFacts.MarkedContains | src/content.js:396-466 | a message with check `k`'s mark is suggested exactly when check `k` proposed it |
| ClarityFacts.MoreContextIffShort | src/content.js:447-451 | "Add more context" is suggested exactly when the request has 1 to 11 words |
| ClarityFacts.PronounHintIff | src/content.js:453-459 | the pronoun hint is suggested exactly when some sentence uses a pronoun without "for", "about" or "regarding" |
| ClarityFacts.NeedingSubjectsNonEmpty | src/content.js:453-457 | the filter finds a sentence exactly when some sentence needs a subject |
| Assembler.BuildChecklist | src/content.js:549-560 | the checklist pushes give the two fixed items, then the constraint item and the plan item under their conditions |
| Assembler.PushBlock | src/content.js:565-592 | one section's pushes append its heading, its lines and one blank line |
| Assembler.Assemble | src/content.js:562-605 | the `sections` pushes give exactly the specified document lines |
| Assembler.ImprovedPrompt | src/content.js:517-608 | a request with content gives the document's lines joined with newlines, and any other request comes back unchanged |
| Assembler.BuildImprovedPrompt | src/content.js:517-608 | the method returns the specified prompt, and a request without visible characters comes back unchanged |
| AssemblerFacts.PlaceholderIff | src/content.js:532-547 | a bucket's section is its placeholder alone exactly when the bucket is empty or its one item formats to that text, and it has one line per item otherwise |
| AssemblerFacts.ChecklistItemsDistinct | src/content.js:549-560 | the four checklist items are different texts |
| AssemblerFacts.SurfaceIff | src/content.js:554-556 | the constraint item is added exactly when the constraint section is one line mentioning "Ask whether" |
| AssemblerFacts.SharePlanIff | src/content.js:558-560 | the plan item is added exactly when there are no steps |
| AssemblerFacts.PlaceholderAsks | src/content.js:539 | the constraint placeholder mentions "Ask whether" |
| AssemblerFacts.SurfaceForConstraints | src/content.js:537-556 | in terms of the constraint bucket: the item is added exactly when there is no constraint, or the only constraint's bullet mentions "Ask whether" |
| AssemblerFacts.SurfaceDespiteConstraint | src/content.js:537-556 | a single detected constraint that mentions "Ask whether" also brings the constraint item |
| AssemblerFacts.HeadingLinesConcat | src/content.js:562-605 | the headings of two joined line lists are the headings of each, in order |
| AssemblerFacts.BlockHeading | src/content.js:565-592 | a section contributes its heading and nothing else to the document's headings |
| AssemblerFacts.QuoteNotHeading | src/content.js:601-605 | the quotation block is never taken for a heading |
| AssemblerFacts.HeadingsInOrder | src/content.js:562-605 | whatever the request, the document's headings are the nine fixed headings, once each, in the fixed order |
| AssemblerFacts.OpensWithPersona | src/content.js:563 | the document opens with the persona sentence for the inferred role |
| AssemblerFacts.SplitPiecesSingleLine | src/content.js:595 | the pieces of a split at newlines hold no newline |
| AssemblerFacts.OriginalLinesShape | src/content.js:593-597 | the original lines are non-empty, start visibly and hold no newline, and there are some exactly when the request has content |
| AssemblerFacts.QuoteBlockLines | src/content.js:604 | the joined quotation splits back into exactly the quoted lines: one `> ` line per original line |
| AssemblerFacts.QuotedRequest | src/content.js:593-605 | for a request with content, the closing block quotes every original line and is never the placeholder |

## Left out

- The user interface is not modelled. That covers the floating button, the keyboard shortcut, the toasts, DOM access to the editable fields, the storage of the button position, the event listeners, the global `window` export, and `src/landing.js`. These are browser I/O, and only their pure helper `clamp` is part of this model.
- Placement.Clamp: works on unbounded integers, not on JavaScript numbers. `NaN`, infinities and fractions are not modelled.
- Case folding is ASCII only, for both `toLowerCase` and the `i` flag. Strings are sequences of characters, not UTF-16 code units, so characters outside the BMP and non-ASCII case pairs behave differently.
- Patterns: only the patterns the pipeline uses are modelled. It is not a general regular-expression engine.
- Patterns.QuantityEnd, Patterns.ActionGroups, Patterns.PhraseEnd: their own contracts only bound the match. When a quantity pattern matches at a position is stated by QuantityEndSpec and QuantityEndMisses. When a verb-and-object pattern matches, and what its groups span, is stated by ActionGroupsSpec and ActionObjectSpec. When a filler phrase matches is stated by PhraseOpensAt, PhraseMisses and SingleWordPhrase. Where the leftmost match starts is stated by SearchFromSpec.
- Format.StripLeading: its own contract only says the result is a tail of the text. The removal is stated by StripLeadingOpens and StripLeadingMisses, exactly for the one-word phrases by StripPlease and ReplaceLeadingMake. A text whose first words begin a longer phrase but do not complete it is not characterised.
- `text.split(/\n+/)` is modelled as a split at every newline. Runs of newlines give empty pieces, which the following `filter(Boolean)` removes, so the lines are the same.
- Classifier: the buckets are the five that `src/content.js:373-391` fills: context, constraints, outputs, steps and other. The prompt has no tone or output-format section.
- The "Surface any critical constraints" checklist item is added when the constraint section is a single line containing "Ask whether" (`src/content.js:554`). That is the case when no constraint was detected, and also when the only detected constraint itself contains that phrase, as AssemblerFacts.SurfaceDespiteConstraint shows.
- AssemblerFacts.PlaceholderIff: stated structurally. It says that the section is the placeholder alone when the bucket is empty, or when the bucket's one sentence formats to the placeholder text. It does not say "exactly when the bucket is empty", because a sentence can format to the placeholder text itself.
- AssemblerFacts.OpensWithPersona: stated on the document lines joined with newlines, not on `Assembler.ImprovedPrompt`. For a request with content the two are the same string.
