/**
  `inferExpertRole`: the persona the improved prompt opens with, chosen by the
  first keyword group that occurs as a whole word in the lower-cased request.
 */
module Role {
  import opened Text
  import opened Patterns

  /** Alternatives that must stand as whole words, as in `/\b(a|b)\b/`. */
  function WholeWords(words: seq<string>): Pattern
  {
    AnyOf(seq(|words|, k requires 0 <= k < |words| => Whole(words[k])))
  }

  const WebWords: Pattern := WholeWords(["website", "landing page", "homepage", "ui", "ux", "hero copy"])
  const EmailWords: Pattern := WholeWords(["email", "newsletter", "subject line"])
  const WritingWords: Pattern := WholeWords(["article", "blog", "write", "copy", "slogan", "tagline", "script", "story"])
  const PresentationWords: Pattern := WholeWords(["pitch deck", "presentation", "slides"])
  const CodeWords: Pattern := WholeWords(["api", "function", "debug", "code", "javascript", "python", "typescript",
    "sql", "algorithm"])
  const DataWords: Pattern := WholeWords(["data", "analysis", "analytics", "chart", "visualization", "insight"])
  const MarketingWords: Pattern := WholeWords(["marketing plan", "campaign", "go-to-market", "brand"])
  const ResearchWords: Pattern := WholeWords(["research", "report", "summary", "brief", "whitepaper"])

  const WebRole := "web designer and conversion-focused copywriter"
  const EmailRole := "email marketing strategist"
  const WritingRole := "senior content strategist and writer"
  const PresentationRole := "presentation design specialist"
  const CodeRole := "senior software engineer"
  const DataRole := "data analyst"
  const MarketingRole := "marketing strategist"
  const ResearchRole := "research analyst"
  const FallbackRole := "multidisciplinary problem-solving assistant"

  /** Whether a keyword group occurs in the lower-cased request. */
  function OccursIn(lower: string): Pattern -> bool
  {
    group => Test(group, lower)
  }

  /** `inferExpertRole`: the groups tried in the order the source tries them,
      with `occurs` telling which groups occur in the request. */
  function RoleChain(occurs: Pattern -> bool): string
  {
    if occurs(WebWords) then WebRole
    else if occurs(EmailWords) then EmailRole
    else if occurs(WritingWords) then WritingRole
    else if occurs(PresentationWords) then PresentationRole
    else if occurs(CodeWords) then CodeRole
    else if occurs(DataWords) then DataRole
    else if occurs(MarketingWords) then MarketingRole
    else if occurs(ResearchWords) then ResearchRole
    else FallbackRole
  }

  /** `inferExpertRole` on the request text: the groups are tested against
      its lower-cased form, and the answer is always one of the nine labels. */
  function InferExpertRole(text: string): (r: string)
    ensures r in Labels
  {
    RoleChain(OccursIn(ToLower(text)))
  }

  /** One row of the role table: a keyword group and the role it selects. */
  datatype Rule = Rule(keywords: Pattern, role: string)

  /** The role table, in priority order. */
  const Rules: seq<Rule> := [
    Rule(WebWords, WebRole), Rule(EmailWords, EmailRole), Rule(WritingWords, WritingRole),
    Rule(PresentationWords, PresentationRole), Rule(CodeWords, CodeRole), Rule(DataWords, DataRole),
    Rule(MarketingWords, MarketingRole), Rule(ResearchWords, ResearchRole)]

  /** The nine roles the function can return. */
  const Labels: set<string> := {WebRole, EmailRole, WritingRole, PresentationRole, CodeRole, DataRole,
    MarketingRole, ResearchRole, FallbackRole}

  /** The role of the first rule, from index `from` on, whose keywords occur,
      and the fallback when none does. */
  function FirstMatch(rules: seq<Rule>, occurs: Pattern -> bool, from: nat): (r: string)
    ensures from < |rules| && occurs(rules[from].keywords) ==> r == rules[from].role
    ensures || (exists k :: (from <= k < |rules| && occurs(rules[k].keywords)
                && (forall j :: from <= j < k ==> !occurs(rules[j].keywords)) && r == rules[k].role))
            || ((forall k :: from <= k < |rules| ==> !occurs(rules[k].keywords)) && r == FallbackRole)
    decreases |rules| - from
  {
    if from >= |rules| then FallbackRole
    else if occurs(rules[from].keywords) then rules[from].role
    else FirstMatch(rules, occurs, from + 1)
  }

  /** The last three rules of the table, looked up from the marketing rule on. */
  lemma LookupFromMarketing(occurs: Pattern -> bool)
    ensures FirstMatch(Rules, occurs, 6) ==
      if occurs(MarketingWords) then MarketingRole
      else if occurs(ResearchWords) then ResearchRole
      else FallbackRole
  {
    assert FirstMatch(Rules, occurs, 8) == FallbackRole;
    assert FirstMatch(Rules, occurs, 7) == if occurs(ResearchWords) then ResearchRole else FallbackRole;
  }

  /** The middle rules of the table, looked up from the presentation rule on. */
  lemma LookupFromPresentation(occurs: Pattern -> bool)
    ensures FirstMatch(Rules, occurs, 3) ==
      if occurs(PresentationWords) then PresentationRole
      else if occurs(CodeWords) then CodeRole
      else if occurs(DataWords) then DataRole
      else FirstMatch(Rules, occurs, 6)
  {
    assert FirstMatch(Rules, occurs, 5) == if occurs(DataWords) then DataRole else FirstMatch(Rules, occurs, 6);
    assert FirstMatch(Rules, occurs, 4) == if occurs(CodeWords) then CodeRole else FirstMatch(Rules, occurs, 5);
  }

  /** The first rules of the table, looked up from the email rule on. */
  lemma LookupFromEmail(occurs: Pattern -> bool)
    ensures FirstMatch(Rules, occurs, 1) ==
      if occurs(EmailWords) then EmailRole
      else if occurs(WritingWords) then WritingRole
      else FirstMatch(Rules, occurs, 3)
  {
    assert FirstMatch(Rules, occurs, 2) == if occurs(WritingWords) then WritingRole
      else FirstMatch(Rules, occurs, 3);
  }

  /** The chain of tests is a first-match lookup in the role table. */
  lemma ChainIsTableLookup(occurs: Pattern -> bool)
    ensures RoleChain(occurs) == FirstMatch(Rules, occurs, 0)
  {
    LookupFromMarketing(occurs);
    LookupFromPresentation(occurs);
    LookupFromEmail(occurs);
    assert FirstMatch(Rules, occurs, 0) == if occurs(WebWords) then WebRole else FirstMatch(Rules, occurs, 1);
  }

  /** No rule selects the fallback role. */
  lemma RulesAvoidFallback()
    ensures forall k :: 0 <= k < |Rules| ==> Rules[k].role != FallbackRole
  {
    assert |FallbackRole| == 43;
  }

  /** The rule at position `k` decides when it matches and no earlier rule
      does. */
  lemma FirstMatchingRuleWins(text: string, k: nat)
    requires k < |Rules|
    requires Test(Rules[k].keywords, ToLower(text))
    requires forall j :: 0 <= j < k ==> !Test(Rules[j].keywords, ToLower(text))
    ensures InferExpertRole(text) == Rules[k].role
  {
    var occurs := OccursIn(ToLower(text));
    ChainIsTableLookup(occurs);
    if exists i :: 0 <= i < |Rules| && occurs(Rules[i].keywords)
        && (forall j :: 0 <= j < i ==> !occurs(Rules[j].keywords))
        && RoleChain(occurs) == Rules[i].role {
      var i :| 0 <= i < |Rules| && occurs(Rules[i].keywords)
        && (forall j :: 0 <= j < i ==> !occurs(Rules[j].keywords))
        && RoleChain(occurs) == Rules[i].role;
      assert i == k;
    }
  }

  /** The fallback role is chosen exactly when no keyword group occurs. */
  lemma FallbackIffNoMatch(text: string)
    ensures InferExpertRole(text) == FallbackRole <==>
      forall k :: 0 <= k < |Rules| ==> !Test(Rules[k].keywords, ToLower(text))
  {
    var occurs := OccursIn(ToLower(text));
    ChainIsTableLookup(occurs);
    RulesAvoidFallback();
  }
}
