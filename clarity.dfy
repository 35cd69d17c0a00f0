/**
  `analyzeClarity`: seven independent checks for vague wording, each proposing
  at most one message. Messages are collected in order with exact-string
  de-duplication (the `addSuggestion` closure over a list and a `seen` set),
  and a fallback message is pushed when no check fired.
 */
module Clarity {
  import opened Wrappers
  import opened Text
  import opened Patterns

  const VagueTime: Pattern := AnyOf([Whole("asap"), Plain("as soon as possible"), Whole("soon"),
    Plain("right away"), Plain("whenever"), Plain("later"), Plain("some time")])
  /** `\bthing(s)?\b` is greedy, so `things` is tried before `thing`. */
  const VagueThing: Pattern := AnyOf([Whole("things"), Whole("thing"), Whole("stuff"), Plain("something"),
    Plain("anything")])
  /** `\betc\.?\b` tries the dot first and backtracks to `etc` alone. */
  const OpenEnded: Pattern := AnyOf([Keyword("etc.", true, true), Whole("etc"), Plain("and so on"),
    Plain("and more")])
  const IndefiniteQuantity: Pattern := Quantity(["a few", "a couple", "several", "some"],
    [Keyword("one", false, true), Keyword("body", false, true), Keyword("thing", false, true),
     Keyword("where", false, true), Keyword("time", false, true)])
  const PronounAction: Pattern := Action(["make", "fix", "improve", "change", "update", "handle", "work on",
    "polish", "adjust", "optimize"],
    [Keyword("it", false, true), Keyword("this", false, true), Keyword("that", false, true),
     Keyword("them", false, true)])
  const Pronouns: Pattern := AnyOf([Whole("it"), Whole("this"), Whole("that"), Whole("they"), Whole("them")])
  const Referrers: Pattern := AnyOf([Whole("for"), Whole("about"), Whole("regarding")])

  const MinimalWordThreshold := 12

  function TimelineMessage(w: string): string
  {
    "Clarify the exact timeline instead of saying \"" + w + "\"."
  }

  function WordingMessage(w: string): string
  {
    "Replace vague wording like \"" + w + "\" with the specific item or outcome you expect."
  }

  function ExamplesMessage(w: string): string
  {
    "List the remaining examples instead of using \"" + w + "\" so the assistant knows what to cover."
  }

  function QuantityMessage(w: string): string
  {
    "Provide a concrete quantity instead of saying \"" + w + "\"."
  }

  function ReferentMessage(pronoun: string, verb: string): string
  {
    "Specify what \"" + pronoun + "\" refers to when asking to " + verb + " it."
  }

  const MoreContext := "Add more context so Prompty understands the audience, purpose, and constraints."
  const PronounHint := "Clarify who or what pronouns like \"it\" or \"they\" refer to."
  const NothingUnclear := "Prompty did not detect unclear phrasing, but double-check that goals, audience, and constraints are explicit."

  /** The message of a check whose match text is `match[0]`. */
  function MatchMessage(p: Pattern, raw: string, message: string -> string): Option<string>
  {
    match Search(p, raw)
    case Some(sp) => Some(message(Matched(raw, sp)))
    case None => None
  }

  /** The verb-and-pronoun check reports both capture groups. */
  function ReferentCheck(raw: string): (r: Option<string>)
    ensures r.Some? <==> Test(PronounAction, raw)
  {
    match Search(PronounAction, raw)
    case Some(sp) =>
      ActionMatchHasGroups(PronounAction, raw, sp);
      (match ActionGroups(raw, sp.start, PronounAction.verbs, PronounAction.objects, 0)
       case Some(g) => Some(ReferentMessage(Matched(raw, g.1), Matched(raw, g.0)))
       case None => None)
    case None => None
  }

  /** `rawText.trim().split(/\s+/).filter(Boolean).length`. */
  function WordCount(raw: string): (r: nat)
    ensures r == 0 <==> !HasContent(raw)
  {
    var parts := SplitWhere(Trim(raw), IsSpace);
    assert (NonEmpty(parts) == []) == !HasContent(raw) by {
      NonEmptyNil(parts);
      TrimKeepsVisible(raw);
      TrimEmptyIff(raw);
      if HasContent(raw) {
        SplitKeepsContent(Trim(raw), IsSpace);
        var k :| 0 <= k < |parts| && HasContent(parts[k]);
        assert parts[k] != [];
      } else {
        assert parts == [[]];
      }
    }
    |NonEmpty(parts)|
  }

  function BrevityCheck(raw: string): Option<string>
  {
    if 0 < WordCount(raw) < MinimalWordThreshold then Some(MoreContext) else None
  }

  /** A sentence uses a pronoun without a `for`/`about`/`regarding` phrase. */
  predicate NeedsSubject(sentence: string)
  {
    Test(Pronouns, ToLower(sentence)) && !Test(Referrers, ToLower(sentence))
  }

  /** `sentences.filter(NeedsSubject)`. */
  function NeedingSubjects(sentences: seq<string>): (r: seq<string>)
    ensures |r| <= |sentences|
    ensures forall x :: x in r <==> x in sentences && NeedsSubject(x)
  {
    if sentences == [] then []
    else (if NeedsSubject(sentences[0]) then [sentences[0]] else []) + NeedingSubjects(sentences[1..])
  }

  function PronounCheck(sentences: seq<string>): Option<string>
  {
    if |NeedingSubjects(sentences)| > 0 then Some(PronounHint) else None
  }

  /** What each of the seven checks proposes, in the order they run. */
  function Checks(raw: string, sentences: seq<string>): seq<Option<string>>
  {
    [MatchMessage(VagueTime, raw, TimelineMessage), MatchMessage(VagueThing, raw, WordingMessage),
     MatchMessage(OpenEnded, raw, ExamplesMessage), MatchMessage(IndefiniteQuantity, raw, QuantityMessage),
     ReferentCheck(raw), BrevityCheck(raw), PronounCheck(sentences)]
  }

  /** The messages of the checks that fired, in order. */
  function Fired(checks: seq<Option<string>>): (r: seq<string>)
    ensures |r| <= |checks|
  {
    if checks == [] then []
    else
      var last := checks[|checks| - 1];
      Fired(checks[..|checks| - 1]) + (if last.Some? then [last.value] else [])
  }

  /** `addSuggestion` on the list alone: empty and repeated messages are dropped. */
  function Added(suggestions: seq<string>, message: string): seq<string>
  {
    if message == [] || message in suggestions then suggestions else suggestions + [message]
  }

  /** `addSuggestion` applied to each message in turn, from an empty list. */
  function Dedup(messages: seq<string>): seq<string>
  {
    if messages == [] then []
    else Added(Dedup(messages[..|messages| - 1]), messages[|messages| - 1])
  }

  /** The de-duplicated messages of the checks that fired, or the fallback
      when none did. */
  function Outcome(checks: seq<Option<string>>): seq<string>
  {
    var found := Dedup(Fired(checks));
    if found == [] then [NothingUnclear] else found
  }

  /** `analyzeClarity(rawText, sentences)`. */
  function Suggestions(raw: string, sentences: seq<string>): seq<string>
  {
    Outcome(Checks(raw, sentences))
  }

  /** `addSuggestion`, with the closure's `suggestions` and `seen` passed in
      and out. */
  method AddSuggestion(suggestions: seq<string>, seen: set<string>, message: string)
    returns (after: seq<string>, seenAfter: set<string>)
    requires seen == Elements(suggestions)
    ensures after == Added(suggestions, message)
    ensures seenAfter == Elements(after)
  {
    if message == [] || message in seen {
      return suggestions, seen;
    }
    seenAfter := seen + {message};
    after := suggestions + [message];
  }

  /** One check run through `addSuggestion`, if it fired. */
  function Step(suggestions: seq<string>, check: Option<string>): seq<string>
  {
    match check
    case Some(m) => Added(suggestions, m)
    case None => suggestions
  }

  /** Running one more check extends the collected list by `Step`. */
  lemma StepSpec(checks: seq<Option<string>>, c: Option<string>)
    ensures Dedup(Fired(checks + [c])) == Step(Dedup(Fired(checks)), c)
  {
    assert (checks + [c])[..|checks|] == checks;
    var fired := Fired(checks);
    if c.Some? {
      assert Fired(checks + [c]) == fired + [c.value];
      assert (fired + [c.value])[..|fired|] == fired;
    } else {
      assert Fired(checks + [c]) == fired + [];
      assert fired + [] == fired;
    }
  }

  /** The seven checks, run one after the other, collect the messages
      `Outcome` lists. */
  lemma SevenSteps(c0: Option<string>, c1: Option<string>, c2: Option<string>, c3: Option<string>,
                   c4: Option<string>, c5: Option<string>, c6: Option<string>)
    ensures var found := Step(Step(Step(Step(Step(Step(Step([], c0), c1), c2), c3), c4), c5), c6);
      Outcome([c0, c1, c2, c3, c4, c5, c6]) == if found == [] then [NothingUnclear] else found
  {
    StepSpec([], c0);
    assert [c0, c1] == [c0] + [c1];
    StepSpec([c0], c1);
    assert [c0, c1, c2] == [c0, c1] + [c2];
    StepSpec([c0, c1], c2);
    assert [c0, c1, c2, c3] == [c0, c1, c2] + [c3];
    StepSpec([c0, c1, c2], c3);
    assert [c0, c1, c2, c3, c4] == [c0, c1, c2, c3] + [c4];
    StepSpec([c0, c1, c2, c3], c4);
    assert [c0, c1, c2, c3, c4, c5] == [c0, c1, c2, c3, c4] + [c5];
    StepSpec([c0, c1, c2, c3, c4], c5);
    assert [c0, c1, c2, c3, c4, c5, c6] == [c0, c1, c2, c3, c4, c5] + [c6];
    StepSpec([c0, c1, c2, c3, c4, c5], c6);
  }

  /** Runs one check: its message, if it fired, goes through `addSuggestion`. */
  method Apply(check: Option<string>, suggestions: seq<string>, seen: set<string>)
    returns (after: seq<string>, seenAfter: set<string>)
    requires seen == Elements(suggestions)
    ensures after == Step(suggestions, check) && seenAfter == Elements(after)
  {
    if check.Some? {
      after, seenAfter := AddSuggestion(suggestions, seen, check.value);
    } else {
      after, seenAfter := suggestions, seen;
    }
  }

  /** The `addSuggestion` calls of `analyzeClarity`, one per check in
      order, and the fallback push. */
  method Collect(time: Option<string>, thing: Option<string>, etc: Option<string>, quantity: Option<string>,
                 referent: Option<string>, brevity: Option<string>, pronoun: Option<string>)
    returns (suggestions: seq<string>)
    ensures suggestions == Outcome([time, thing, etc, quantity, referent, brevity, pronoun])
  {
    var seen: set<string> := {};
    suggestions := [];
    suggestions, seen := Apply(time, suggestions, seen);
    suggestions, seen := Apply(thing, suggestions, seen);
    suggestions, seen := Apply(etc, suggestions, seen);
    suggestions, seen := Apply(quantity, suggestions, seen);
    suggestions, seen := Apply(referent, suggestions, seen);
    suggestions, seen := Apply(brevity, suggestions, seen);
    suggestions, seen := Apply(pronoun, suggestions, seen);
    SevenSteps(time, thing, etc, quantity, referent, brevity, pronoun);
    if |suggestions| == 0 {
      suggestions := suggestions + [NothingUnclear];
    }
  }

  /** `analyzeClarity(rawText, sentences)`: the seven checks, then their
      messages collected. */
  method AnalyzeClarity(raw: string, sentences: seq<string>) returns (suggestions: seq<string>)
    ensures suggestions == Suggestions(raw, sentences)
  {
    var time := MatchMessage(VagueTime, raw, TimelineMessage);
    var thing := MatchMessage(VagueThing, raw, WordingMessage);
    var etc := MatchMessage(OpenEnded, raw, ExamplesMessage);
    var quantity := MatchMessage(IndefiniteQuantity, raw, QuantityMessage);
    var referent := ReferentCheck(raw);
    var wordCount := WordCount(raw);
    var brevity: Option<string> := None;
    if wordCount > 0 && wordCount < MinimalWordThreshold {
      brevity := Some(MoreContext);
    }
    var needingSubjects := NeedingSubjects(sentences);
    var pronoun: Option<string> := None;
    if |needingSubjects| > 0 {
      pronoun := Some(PronounHint);
    }
    suggestions := Collect(time, thing, etc, quantity, referent, brevity, pronoun);
  }
}

/** Properties of `analyzeClarity`'s result. */
module ClarityFacts {
  import opened Wrappers
  import opened Text
  import opened Patterns
  import opened Clarity

  /** The messages the filter of the checks lets through are exactly the
      values of the checks that fired. */
  lemma {:induction false} FiredMember(checks: seq<Option<string>>, m: string)
    ensures m in Fired(checks) <==> exists k :: 0 <= k < |checks| && checks[k] == Some(m)
  {
    if checks != [] {
      var n := |checks| - 1;
      FiredMember(checks[..n], m);
      assert forall k :: 0 <= k < n ==> checks[..n][k] == checks[k];
    }
  }

  /** Fired checks with pairwise different messages give a list without
      repetitions. */
  lemma {:induction false} FiredNoDup(checks: seq<Option<string>>)
    requires forall i, j :: 0 <= i < j < |checks| && checks[i].Some? && checks[j].Some? ==>
      checks[i].value != checks[j].value
    ensures NoDup(Fired(checks))
  {
    if checks != [] {
      var n := |checks| - 1;
      var front := checks[..n];
      FiredNoDup(front);
      if checks[n].Some? {
        var m := checks[n].value;
        FiredMember(front, m);
        assert m !in Fired(front);
      }
    }
  }

  /** `addSuggestion` keeps a list without repetitions or empty messages, and
      holds on to every non-empty message it was given. */
  lemma {:induction false} DedupSpec(messages: seq<string>)
    ensures NoDup(Dedup(messages))
    ensures forall m :: m in Dedup(messages) <==> m in messages && m != []
  {
    if messages != [] {
      var n := |messages| - 1;
      DedupSpec(messages[..n]);
      assert messages == messages[..n] + [messages[n]];
    }
  }

  /** When every message is non-empty and none repeats, nothing is dropped. */
  lemma {:induction false} DedupKeepsDistinct(messages: seq<string>)
    requires NoDup(messages)
    requires forall k :: 0 <= k < |messages| ==> messages[k] != []
    ensures Dedup(messages) == messages
  {
    if messages != [] {
      var n := |messages| - 1;
      DedupKeepsDistinct(messages[..n]);
      assert messages[n] !in messages[..n];
      assert messages == messages[..n] + [messages[n]];
    }
  }

  /** The result of `analyzeClarity` is never empty and never repeats a
      message. */
  lemma SuggestionsAreDistinct(raw: string, sentences: seq<string>)
    ensures Suggestions(raw, sentences) != []
    ensures NoDup(Suggestions(raw, sentences))
  {
    DedupSpec(Fired(Checks(raw, sentences)));
  }

  /** The closing characters (and, for the two messages that close alike,
      the character at index 45) that tell the message of check `k` apart from
      the others; `k == 7` stands for the fallback message. */
  predicate Marked(m: string, k: nat)
  {
    |m| >= 4 &&
    var last := m[|m| - 2];
    if k == 0 then |m| > 46 && last == '"' && m[45] == '"'
    else if k == 1 then last == 't' && m[|m| - 3] == 'c'
    else if k == 2 then last == 'r'
    else if k == 3 then |m| > 46 && last == '"' && m[45] == ' '
    else if k == 4 then last == 't' && m[|m| - 3] == 'i' && m[|m| - 4] == ' '
    else if k == 5 then last == 's'
    else if k == 6 then last == 'o'
    else k == 7 && last == 't' && m[|m| - 3] == 'i' && m[|m| - 4] == 'c'
  }

  /** A message carries the mark of one check only. */
  lemma MarkUnique(m: string, i: nat, j: nat)
    requires Marked(m, i) && Marked(m, j)
    ensures i == j
  {
  }

  /** Seven check results, each carrying the mark of its check when it fired. */
  predicate WellMarked(checks: seq<Option<string>>)
  {
    |checks| == 7 && forall k :: 0 <= k < |checks| && checks[k].Some? ==> Marked(checks[k].value, k)
  }

  lemma TimelineMarked(w: string)
    ensures Marked(TimelineMessage(w), 0)
  {
  }

  lemma WordingMarked(w: string)
    ensures Marked(WordingMessage(w), 1)
  {
  }

  lemma ExamplesMarked(w: string)
    ensures Marked(ExamplesMessage(w), 2)
  {
  }

  lemma QuantityMarked(w: string)
    ensures Marked(QuantityMessage(w), 3)
  {
  }

  lemma ReferentMarked(w: string, v: string)
    ensures Marked(ReferentMessage(w, v), 4)
  {
  }

  lemma ConstantsMarked()
    ensures Marked(MoreContext, 5) && Marked(PronounHint, 6) && Marked(NothingUnclear, 7)
  {
  }

  /** A message-building check's message carries the mark its builder gives. */
  lemma MatchMessageMarked(p: Pattern, raw: string, message: string -> string, k: nat)
    requires forall w :: Marked(message(w), k)
    ensures MatchMessage(p, raw, message).Some? ==> Marked(MatchMessage(p, raw, message).value, k)
  {
  }

  lemma ReferentCheckMarked(raw: string)
    ensures ReferentCheck(raw).Some? ==> Marked(ReferentCheck(raw).value, 4)
  {
    match Search(PronounAction, raw) {
      case Some(sp) =>
        match ActionGroups(raw, sp.start, PronounAction.verbs, PronounAction.objects, 0) {
          case Some(g) => ReferentMarked(Matched(raw, g.1), Matched(raw, g.0));
          case None =>
        }
      case None =>
    }
  }

  lemma SevenMarked(c0: Option<string>, c1: Option<string>, c2: Option<string>, c3: Option<string>,
                    c4: Option<string>, c5: Option<string>, c6: Option<string>)
    requires c0.Some? ==> Marked(c0.value, 0)
    requires c1.Some? ==> Marked(c1.value, 1)
    requires c2.Some? ==> Marked(c2.value, 2)
    requires c3.Some? ==> Marked(c3.value, 3)
    requires c4.Some? ==> Marked(c4.value, 4)
    requires c5.Some? ==> Marked(c5.value, 5)
    requires c6.Some? ==> Marked(c6.value, 6)
    ensures WellMarked([c0, c1, c2, c3, c4, c5, c6])
  {
  }

  /** Each check's message, when it fires, carries that check's mark. */
  lemma ChecksMarked(raw: string, sentences: seq<string>)
    ensures WellMarked(Checks(raw, sentences))
  {
    forall w: string
      ensures Marked(TimelineMessage(w), 0) && Marked(WordingMessage(w), 1)
      ensures Marked(ExamplesMessage(w), 2) && Marked(QuantityMessage(w), 3)
    {
      TimelineMarked(w);
      WordingMarked(w);
      ExamplesMarked(w);
      QuantityMarked(w);
    }
    MatchMessageMarked(VagueTime, raw, TimelineMessage, 0);
    MatchMessageMarked(VagueThing, raw, WordingMessage, 1);
    MatchMessageMarked(OpenEnded, raw, ExamplesMessage, 2);
    MatchMessageMarked(IndefiniteQuantity, raw, QuantityMessage, 3);
    ReferentCheckMarked(raw);
    ConstantsMarked();
    SevenMarked(MatchMessage(VagueTime, raw, TimelineMessage), MatchMessage(VagueThing, raw, WordingMessage),
      MatchMessage(OpenEnded, raw, ExamplesMessage), MatchMessage(IndefiniteQuantity, raw, QuantityMessage),
      ReferentCheck(raw), BrevityCheck(raw), PronounCheck(sentences));
  }

  /** Well-marked checks never propose the same message, and none proposes the
      fallback. */
  lemma MarkedDistinct(checks: seq<Option<string>>)
    requires WellMarked(checks)
    ensures forall i, j :: 0 <= i < j < |checks| && checks[i].Some? && checks[j].Some? ==>
      checks[i].value != checks[j].value
    ensures forall k :: 0 <= k < |checks| ==> checks[k] != Some(NothingUnclear)
  {
    ConstantsMarked();
    forall i, j | 0 <= i < j < |checks| && checks[i].Some? && checks[j].Some?
      ensures checks[i].value != checks[j].value
    {
      if checks[i].value == checks[j].value {
        MarkUnique(checks[i].value, i, j);
      }
    }
    forall k | 0 <= k < |checks| && checks[k] == Some(NothingUnclear)
      ensures false
    {
      MarkUnique(NothingUnclear, k, 7);
    }
  }

  /** Exact-string de-duplication never drops a message of well-marked checks. */
  lemma MarkedNothingDropped(checks: seq<Option<string>>)
    requires WellMarked(checks)
    ensures Dedup(Fired(checks)) == Fired(checks)
  {
    MarkedDistinct(checks);
    FiredNoDup(checks);
    var fired := Fired(checks);
    forall k | 0 <= k < |fired|
      ensures fired[k] != []
    {
      FiredMember(checks, fired[k]);
    }
    DedupKeepsDistinct(fired);
  }

  /** Every check that fires contributes its own message, in check order:
      the `seen` set never rejects one. */
  lemma NothingDropped(raw: string, sentences: seq<string>)
    ensures Dedup(Fired(Checks(raw, sentences))) == Fired(Checks(raw, sentences))
  {
    ChecksMarked(raw, sentences);
    MarkedNothingDropped(Checks(raw, sentences));
  }

  lemma MarkedFallback(checks: seq<Option<string>>)
    requires WellMarked(checks)
    ensures NothingUnclear in Outcome(checks) <==> forall k :: 0 <= k < |checks| ==> checks[k].None?
  {
    MarkedNothingDropped(checks);
    MarkedDistinct(checks);
    FiredMember(checks, NothingUnclear);
    if exists k :: 0 <= k < |checks| && checks[k].Some? {
      var k :| 0 <= k < |checks| && checks[k].Some?;
      FiredMember(checks, checks[k].value);
    }
    if forall k :: 0 <= k < |checks| ==> checks[k].None? {
      if Fired(checks) != [] {
        FiredMember(checks, Fired(checks)[0]);
      }
    }
  }

  /** The fallback message is present exactly when no check fired. */
  lemma FallbackIffNothingFired(raw: string, sentences: seq<string>)
    ensures NothingUnclear in Suggestions(raw, sentences) <==>
      forall k :: 0 <= k < |Checks(raw, sentences)| ==> Checks(raw, sentences)[k].None?
  {
    ChecksMarked(raw, sentences);
    MarkedFallback(Checks(raw, sentences));
  }

  lemma MarkedContains(checks: seq<Option<string>>, k: nat, m: string)
    requires WellMarked(checks) && k < |checks| && Marked(m, k)
    ensures m in Outcome(checks) <==> checks[k] == Some(m)
  {
    MarkedNothingDropped(checks);
    MarkedDistinct(checks);
    FiredMember(checks, m);
    ConstantsMarked();
    forall i | 0 <= i < |checks| && checks[i] == Some(m)
      ensures i == k
    {
      MarkUnique(m, i, k);
    }
    if checks[k] == Some(m) {
      assert Fired(checks) != [];
    } else if m == NothingUnclear {
      MarkUnique(m, k, 7);
    }
  }

  /** "Add more context" is suggested exactly when the request has between 1
      and 11 words. */
  lemma MoreContextIffShort(raw: string, sentences: seq<string>)
    ensures MoreContext in Suggestions(raw, sentences) <==> 1 <= WordCount(raw) <= 11
  {
    ChecksMarked(raw, sentences);
    ConstantsMarked();
    MarkedContains(Checks(raw, sentences), 5, MoreContext);
  }

  /** The pronoun hint is suggested exactly when some sentence uses a pronoun
      without saying what it is for or about. */
  lemma PronounHintIff(raw: string, sentences: seq<string>)
    ensures PronounHint in Suggestions(raw, sentences) <==>
      exists k :: 0 <= k < |sentences| && NeedsSubject(sentences[k])
  {
    ChecksMarked(raw, sentences);
    ConstantsMarked();
    MarkedContains(Checks(raw, sentences), 6, PronounHint);
    NeedingSubjectsNonEmpty(sentences);
  }

  /** The filter finds a sentence exactly when one needs a subject. */
  lemma {:induction false} NeedingSubjectsNonEmpty(sentences: seq<string>)
    ensures |NeedingSubjects(sentences)| > 0 <==> exists k :: 0 <= k < |sentences| && NeedsSubject(sentences[k])
  {
    if sentences != [] {
      NeedingSubjectsNonEmpty(sentences[1..]);
      if exists k :: 0 <= k < |sentences[1..]| && NeedsSubject(sentences[1..][k]) {
        var k :| 0 <= k < |sentences[1..]| && NeedsSubject(sentences[1..][k]);
        assert NeedsSubject(sentences[k + 1]);
      }
      if exists k :: 0 <= k < |sentences| && NeedsSubject(sentences[k]) {
        var k :| 0 <= k < |sentences| && NeedsSubject(sentences[k]);
        if k > 0 {
          assert NeedsSubject(sentences[1..][k - 1]);
        }
      }
    }
  }
}
