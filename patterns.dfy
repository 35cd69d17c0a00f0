/**
  The regular expressions of the pipeline, as data. A pattern is a list of
  literal alternatives with optional word boundaries (`\b`), or one of the two
  composite shapes the clarity checks use. Matching ignores ASCII case (the
  `i` flag). A search returns the leftmost match and, at one position, the
  first alternative that matches, as `String.prototype.match` and
  `RegExp.prototype.test` do for these expressions.
 */
module Patterns {
  import opened Wrappers
  import opened Text

  /** The characters `\w` matches without the `u` flag. */
  predicate IsWordChar(c: char)
  {
    'a' <= c <= 'z' || 'A' <= c <= 'Z' || '0' <= c <= '9' || c == '_'
  }

  predicate IsAsciiLetter(c: char)
  {
    'a' <= c <= 'z' || 'A' <= c <= 'Z'
  }

  predicate WordCharAt(s: string, j: int)
  {
    0 <= j < |s| && IsWordChar(s[j])
  }

  /** `\b` holds at position `j`: exactly one side of it is a word character. */
  predicate IsBoundary(s: string, j: int)
  {
    WordCharAt(s, j - 1) != WordCharAt(s, j)
  }

  /** `w` occurs at position `i`, ignoring ASCII case. */
  predicate LiteralAt(s: string, i: nat, w: string)
  {
    i + |w| <= |s| && forall k :: 0 <= k < |w| ==> Lower(s[i + k]) == Lower(w[k])
  }

  /** One alternative: a literal, optionally required to start or end at `\b`. */
  datatype Keyword = Keyword(word: string, boundBefore: bool, boundAfter: bool)

  /** An alternative matched anywhere, as in `/(must|should)/i`. */
  function Plain(w: string): Keyword
  {
    Keyword(w, false, false)
  }

  /** An alternative matched as a whole word, as in `/\b(email|blog)\b/`. */
  function Whole(w: string): Keyword
  {
    Keyword(w, true, true)
  }

  predicate KeywordAt(s: string, i: nat, kw: Keyword)
  {
    LiteralAt(s, i, kw.word)
    && (kw.boundBefore ==> IsBoundary(s, i))
    && (kw.boundAfter ==> IsBoundary(s, i + |kw.word|))
  }

  /** The first alternative, from index `from` on, that matches at position `i`. */
  function FirstKeyword(s: string, i: nat, kws: seq<Keyword>, from: nat): (r: Option<nat>)
    ensures r.Some? ==> from <= r.value < |kws| && i + |kws[r.value].word| <= |s|
    decreases |kws| - from
  {
    if from >= |kws| then None
    else if KeywordAt(s, i, kws[from]) then Some(from)
    else FirstKeyword(s, i, kws, from + 1)
  }

  /** The alternative found is the first one, from `from` on, that matches. */
  lemma {:induction false} FirstKeywordSpec(s: string, i: nat, kws: seq<Keyword>, from: nat)
    ensures var r := FirstKeyword(s, i, kws, from);
      && (r.Some? ==> KeywordAt(s, i, kws[r.value]) && forall k :: from <= k < r.value ==> !KeywordAt(s, i, kws[k]))
      && (r.None? ==> forall k :: from <= k < |kws| ==> !KeywordAt(s, i, kws[k]))
    decreases |kws| - from
  {
    if from < |kws| && !KeywordAt(s, i, kws[from]) {
      FirstKeywordSpec(s, i, kws, from + 1);
    }
  }

  /** The end of the greedy `[a-z]*` run (with the `i` flag) that starts at `i`. */
  function LetterRunEnd(s: string, i: nat): (j: nat)
    requires i <= |s|
    ensures i <= j <= |s|
    ensures forall k :: i <= k < j ==> IsAsciiLetter(s[k])
    ensures j == |s| || !IsAsciiLetter(s[j])
    decreases |s| - i
  {
    if i < |s| && IsAsciiLetter(s[i]) then LetterRunEnd(s, i + 1) else i
  }

  datatype Span = Span(start: nat, end: nat)

  datatype Pattern =
      // `(k1|k2|…)`, each alternative with its own optional `\b`s
    | AnyOf(keywords: seq<Keyword>)
      // `\b(q1|q2|…)\s+(?!x1\b|x2\b|…)([a-z]+)`
    | Quantity(quantifiers: seq<string>, exclusions: seq<Keyword>)
      // `\b(v1|v2|…)\s+(o1|o2|…)\b`
    | Action(verbs: seq<string>, objects: seq<Keyword>)

  /** Where a `Quantity` match starting at `i` ends, trying the quantifiers from `k` on. */
  function QuantityEnd(s: string, i: nat, qs: seq<string>, ex: seq<Keyword>, k: nat): (r: Option<nat>)
    requires i <= |s|
    ensures r.Some? ==> i <= r.value <= |s|
    decreases |qs| - k
  {
    if k >= |qs| then None
    else if LiteralAt(s, i, qs[k]) && IsBoundary(s, i) then
      var j := SpaceRunEnd(s, i + |qs[k]|);
      if j > i + |qs[k]| && FirstKeyword(s, j, ex, 0).None? && LetterRunEnd(s, j) > j then
        Some(LetterRunEnd(s, j))
      else QuantityEnd(s, i, qs, ex, k + 1)
    else QuantityEnd(s, i, qs, ex, k + 1)
  }

  /** The two capture groups (verb, object) of an `Action` match starting at `i`,
      trying the verbs from `k` on. */
  function ActionGroups(s: string, i: nat, verbs: seq<string>, objects: seq<Keyword>, k: nat): (r: Option<(Span, Span)>)
    requires i <= |s|
    ensures r.Some? ==> i == r.value.0.start <= r.value.0.end <= r.value.1.start <= r.value.1.end <= |s|
    decreases |verbs| - k
  {
    if k >= |verbs| then None
    else if LiteralAt(s, i, verbs[k]) && IsBoundary(s, i) then
      var v := i + |verbs[k]|;
      var j := SpaceRunEnd(s, v);
      if j > v then
        match FirstKeyword(s, j, objects, 0)
        case Some(m) => Some((Span(i, v), Span(j, j + |objects[m].word|)))
        case None => ActionGroups(s, i, verbs, objects, k + 1)
      else ActionGroups(s, i, verbs, objects, k + 1)
    else ActionGroups(s, i, verbs, objects, k + 1)
  }

  /** Quantifier `q` opens a `Quantity` match at `i`: it starts at a word
      boundary, white space follows it, and the word after that space is a
      letter run that no exclusion matches at its start. */
  predicate QuantifierFits(s: string, i: nat, q: string, ex: seq<Keyword>)
  {
    LiteralAt(s, i, q) && IsBoundary(s, i)
    && (var j := SpaceRunEnd(s, i + |q|);
        j > i + |q| && (forall x :: 0 <= x < |ex| ==> !KeywordAt(s, j, ex[x])) && LetterRunEnd(s, j) > j)
  }

  /** One step of the search over quantifiers: the quantifier at `k` decides
      when it fits, and the search moves on otherwise. */
  lemma QuantityEndStep(s: string, i: nat, qs: seq<string>, ex: seq<Keyword>, k: nat)
    requires i <= |s| && k < |qs|
    ensures QuantityEnd(s, i, qs, ex, k) ==
      if QuantifierFits(s, i, qs[k], ex) then Some(LetterRunEnd(s, SpaceRunEnd(s, i + |qs[k]|)))
      else QuantityEnd(s, i, qs, ex, k + 1)
  {
    if LiteralAt(s, i, qs[k]) && IsBoundary(s, i) {
      FirstKeywordSpec(s, SpaceRunEnd(s, i + |qs[k]|), ex, 0);
    }
  }

  /** There is no `Quantity` match at `i` exactly when no quantifier, from
      `k` on, fits. */
  lemma {:induction false} QuantityEndMisses(s: string, i: nat, qs: seq<string>, ex: seq<Keyword>, k: nat)
    requires i <= |s|
    ensures QuantityEnd(s, i, qs, ex, k).None? <==> forall m :: k <= m < |qs| ==> !QuantifierFits(s, i, qs[m], ex)
    decreases |qs| - k
  {
    if k < |qs| {
      QuantityEndStep(s, i, qs, ex, k);
      if !QuantifierFits(s, i, qs[k], ex) {
        QuantityEndMisses(s, i, qs, ex, k + 1);
      }
    }
  }

  /** The quantifier that decides is the first one, from `k` on, that fits,
      and the match then ends after the word that follows it; there is no
      match exactly when no quantifier fits. */
  lemma {:induction false} QuantityEndSpec(s: string, i: nat, qs: seq<string>, ex: seq<Keyword>, k: nat)
    requires i <= |s|
    ensures var r := QuantityEnd(s, i, qs, ex, k);
      && (r.None? <==> forall m :: k <= m < |qs| ==> !QuantifierFits(s, i, qs[m], ex))
      && (r.Some? ==> exists m :: (k <= m < |qs| && QuantifierFits(s, i, qs[m], ex)
            && (forall n :: k <= n < m ==> !QuantifierFits(s, i, qs[n], ex))
            && r.value == LetterRunEnd(s, SpaceRunEnd(s, i + |qs[m]|))))
    decreases |qs| - k
  {
    QuantityEndMisses(s, i, qs, ex, k);
    var r := QuantityEnd(s, i, qs, ex, k);
    if k < |qs| && r.Some? {
      QuantityEndStep(s, i, qs, ex, k);
      if QuantifierFits(s, i, qs[k], ex) {
        assert r.value == LetterRunEnd(s, SpaceRunEnd(s, i + |qs[k]|));
      } else {
        QuantityEndSpec(s, i, qs, ex, k + 1);
        var m :| k + 1 <= m < |qs| && QuantifierFits(s, i, qs[m], ex)
          && (forall n :: k + 1 <= n < m ==> !QuantifierFits(s, i, qs[n], ex))
          && r.value == LetterRunEnd(s, SpaceRunEnd(s, i + |qs[m]|));
        assert forall n :: k <= n < m ==> !QuantifierFits(s, i, qs[n], ex);
      }
    }
  }

  /** Verb `v` opens an `Action` match at `i`: it starts at a word boundary,
      white space follows it, and an object matches right after that space. */
  predicate VerbFits(s: string, i: nat, v: string, objects: seq<Keyword>)
  {
    LiteralAt(s, i, v) && IsBoundary(s, i)
    && (var j := SpaceRunEnd(s, i + |v|);
        j > i + |v| && exists x :: 0 <= x < |objects| && KeywordAt(s, j, objects[x]))
  }

  /** One step of the search over verbs: the verb at `k` decides when it
      fits, with the first object that matches after it, and the search moves
      on otherwise. */
  lemma ActionGroupsStep(s: string, i: nat, verbs: seq<string>, objects: seq<Keyword>, k: nat)
    requires i <= |s| && k < |verbs|
    ensures var r := ActionGroups(s, i, verbs, objects, k);
      && (VerbFits(s, i, verbs[k], objects) ==>
            var j := SpaceRunEnd(s, i + |verbs[k]|);
            FirstKeyword(s, j, objects, 0).Some?
            && r == Some((Span(i, i + |verbs[k]|), Span(j, j + |objects[FirstKeyword(s, j, objects, 0).value].word|))))
      && (!VerbFits(s, i, verbs[k], objects) ==> r == ActionGroups(s, i, verbs, objects, k + 1))
  {
    if LiteralAt(s, i, verbs[k]) && IsBoundary(s, i) {
      FirstKeywordSpec(s, SpaceRunEnd(s, i + |verbs[k]|), objects, 0);
    }
  }

  /** There is no `Action` match at `i` exactly when no verb, from `k` on,
      fits. */
  lemma {:induction false} ActionGroupsMisses(s: string, i: nat, verbs: seq<string>, objects: seq<Keyword>, k: nat)
    requires i <= |s|
    ensures ActionGroups(s, i, verbs, objects, k).None? <==>
      forall m :: k <= m < |verbs| ==> !VerbFits(s, i, verbs[m], objects)
    decreases |verbs| - k
  {
    if k < |verbs| {
      ActionGroupsStep(s, i, verbs, objects, k);
      if !VerbFits(s, i, verbs[k], objects) {
        ActionGroupsMisses(s, i, verbs, objects, k + 1);
      }
    }
  }

  /** The verb that decides is the first one, from `k` on, that fits; the
      verb group spans it and the object group starts after the white space
      that follows it; there is no match exactly when no verb fits. */
  lemma {:induction false} ActionGroupsSpec(s: string, i: nat, verbs: seq<string>, objects: seq<Keyword>, k: nat)
    requires i <= |s|
    ensures var r := ActionGroups(s, i, verbs, objects, k);
      && (r.None? <==> forall m :: k <= m < |verbs| ==> !VerbFits(s, i, verbs[m], objects))
      && (r.Some? ==> exists m :: (k <= m < |verbs| && VerbFits(s, i, verbs[m], objects)
            && (forall n :: k <= n < m ==> !VerbFits(s, i, verbs[n], objects))
            && r.value.0 == Span(i, i + |verbs[m]|)
            && r.value.1.start == SpaceRunEnd(s, i + |verbs[m]|)))
    decreases |verbs| - k
  {
    ActionGroupsMisses(s, i, verbs, objects, k);
    var r := ActionGroups(s, i, verbs, objects, k);
    if k < |verbs| && r.Some? {
      ActionGroupsStep(s, i, verbs, objects, k);
      if VerbFits(s, i, verbs[k], objects) {
        assert r.value.0 == Span(i, i + |verbs[k]|);
      } else {
        ActionGroupsSpec(s, i, verbs, objects, k + 1);
        var m :| k + 1 <= m < |verbs| && VerbFits(s, i, verbs[m], objects)
          && (forall n :: k + 1 <= n < m ==> !VerbFits(s, i, verbs[n], objects))
          && r.value.0 == Span(i, i + |verbs[m]|)
          && r.value.1.start == SpaceRunEnd(s, i + |verbs[m]|);
        assert forall n :: k <= n < m ==> !VerbFits(s, i, verbs[n], objects);
      }
    }
  }

  /** The object group spans the first object, in source order, that matches
      where it starts. */
  lemma {:induction false} ActionObjectSpec(s: string, i: nat, verbs: seq<string>, objects: seq<Keyword>, k: nat)
    requires i <= |s|
    ensures var r := ActionGroups(s, i, verbs, objects, k);
      r.Some? ==> exists x :: (0 <= x < |objects| && KeywordAt(s, r.value.1.start, objects[x])
        && (forall y :: 0 <= y < x ==> !KeywordAt(s, r.value.1.start, objects[y]))
        && r.value.1.end == r.value.1.start + |objects[x].word|)
    decreases |verbs| - k
  {
    if k < |verbs| {
      ActionGroupsStep(s, i, verbs, objects, k);
      if VerbFits(s, i, verbs[k], objects) {
        FirstKeywordSpec(s, SpaceRunEnd(s, i + |verbs[k]|), objects, 0);
      } else {
        ActionObjectSpec(s, i, verbs, objects, k + 1);
      }
    }
  }

  /** Where a match of `p` that starts at position `i` ends, if there is one. */
  function MatchEnd(p: Pattern, s: string, i: nat): (r: Option<nat>)
    requires i <= |s|
    ensures r.Some? ==> i <= r.value <= |s|
  {
    match p
    case AnyOf(kws) =>
      (match FirstKeyword(s, i, kws, 0)
       case Some(k) => Some(i + |kws[k].word|)
       case None => None)
    case Quantity(qs, ex) => QuantityEnd(s, i, qs, ex, 0)
    case Action(verbs, objects) =>
      (match ActionGroups(s, i, verbs, objects, 0)
       case Some(g) => Some(g.1.end)
       case None => None)
  }

  /** The first position, from `from` on, whose entry holds a value, with
      that value. */
  function Leftmost(ends: seq<Option<nat>>, from: nat): (r: Option<(nat, nat)>)
    ensures r.Some? ==> from <= r.value.0 < |ends| && ends[r.value.0] == Some(r.value.1)
    decreases |ends| - from
  {
    if from >= |ends| then None
    else if ends[from].Some? then Some((from, ends[from].value))
    else Leftmost(ends, from + 1)
  }

  /** The position found is the first one holding a value, and there is none
      exactly when every entry from `from` on is empty. */
  lemma {:induction false} LeftmostSpec(ends: seq<Option<nat>>, from: nat)
    ensures var r := Leftmost(ends, from);
      && (r.None? <==> forall i :: from <= i < |ends| ==> ends[i].None?)
      && (r.Some? ==> forall i :: from <= i < r.value.0 ==> ends[i].None?)
    decreases |ends| - from
  {
    if from < |ends| && ends[from].None? {
      LeftmostSpec(ends, from + 1);
    }
  }

  /** Where a match starting at each position of `s` ends, if there is one. */
  function Ends(p: Pattern, s: string): (ends: seq<Option<nat>>)
    ensures |ends| == |s| + 1
    ensures forall i :: 0 <= i <= |s| ==> ends[i] == MatchEnd(p, s, i)
  {
    seq(|s| + 1, i requires 0 <= i <= |s| => MatchEnd(p, s, i))
  }

  /** The leftmost match of `p` at or after position `from`. */
  function SearchFrom(p: Pattern, s: string, from: nat): (r: Option<Span>)
    ensures r.Some? ==> from <= r.value.start <= r.value.end <= |s|
  {
    var ends := Ends(p, s);
    match Leftmost(ends, from)
    case Some(hit) =>
      assert MatchEnd(p, s, hit.0) == Some(hit.1);
      Some(Span(hit.0, hit.1))
    case None => None
  }

  /** The search finds the leftmost position where the pattern matches, and
      fails exactly when it matches nowhere. */
  lemma SearchFromSpec(p: Pattern, s: string, from: nat)
    ensures var r := SearchFrom(p, s, from);
      && (r.None? <==> forall i :: from <= i <= |s| ==> MatchEnd(p, s, i).None?)
      && (r.Some? ==> MatchEnd(p, s, r.value.start) == Some(r.value.end)
                      && forall i :: from <= i < r.value.start ==> MatchEnd(p, s, i).None?)
  {
    var ends := Ends(p, s);
    LeftmostSpec(ends, from);
    var r := SearchFrom(p, s, from);
    if r.None? {
      forall i | from <= i <= |s| ensures MatchEnd(p, s, i).None? {
        assert ends[i].None?;
      }
    } else {
      forall i | from <= i < r.value.start ensures MatchEnd(p, s, i).None? {
        assert ends[i].None?;
      }
    }
    if forall i :: from <= i <= |s| ==> MatchEnd(p, s, i).None? {
      assert forall i :: from <= i < |ends| ==> ends[i].None?;
    }
  }

  /** A match of a verb-and-object pattern has both capture groups. */
  lemma ActionMatchHasGroups(p: Pattern, s: string, sp: Span)
    requires p.Action? && Search(p, s) == Some(sp)
    ensures sp.start <= |s| && ActionGroups(s, sp.start, p.verbs, p.objects, 0).Some?
  {
    SearchFromSpec(p, s, 0);
  }

  /** `s.match(p)`: the leftmost match, if any. */
  function Search(p: Pattern, s: string): Option<Span>
  {
    SearchFrom(p, s, 0)
  }

  /** `p.test(s)`. */
  predicate Test(p: Pattern, s: string)
  {
    Search(p, s).Some?
  }

  /** The text a match covers: `match[0]`. */
  function Matched(s: string, sp: Span): string
    requires sp.start <= sp.end <= |s|
  {
    s[sp.start..sp.end]
  }

  /** A keyword list matches a text exactly when one of its alternatives occurs
      in it (with its boundaries). */
  lemma {:induction false} AnyOfTest(kws: seq<Keyword>, s: string)
    ensures Test(AnyOf(kws), s) <==> exists i, k :: 0 <= i <= |s| && 0 <= k < |kws| && KeywordAt(s, i, kws[k])
  {
    SearchFromSpec(AnyOf(kws), s, 0);
    if Test(AnyOf(kws), s) {
      var sp := Search(AnyOf(kws), s).value;
      var k := FirstKeyword(s, sp.start, kws, 0).value;
      FirstKeywordSpec(s, sp.start, kws, 0);
      assert KeywordAt(s, sp.start, kws[k]);
    }
    if exists i, k :: 0 <= i <= |s| && 0 <= k < |kws| && KeywordAt(s, i, kws[k]) {
      var i, k :| 0 <= i <= |s| && 0 <= k < |kws| && KeywordAt(s, i, kws[k]);
      FirstKeywordSpec(s, i, kws, 0);
      assert FirstKeyword(s, i, kws, 0).Some?;
      assert MatchEnd(AnyOf(kws), s, i).Some?;
    }
  }

  /** An anchored phrase `^(a1|a2|…)\s+(b1|b2|…)\s+…`: where it ends when it
      matches at `i`. Each group of alternatives is followed by white space. */
  function PhraseEnd(groups: seq<seq<string>>, s: string, i: nat): (r: Option<nat>)
    requires i <= |s|
    ensures r.Some? ==> i <= r.value <= |s|
    decreases |groups|, 1, 0
  {
    if groups == [] then Some(i) else AlternativeEnd(groups, s, i, 0)
  }

  function AlternativeEnd(groups: seq<seq<string>>, s: string, i: nat, k: nat): (r: Option<nat>)
    requires groups != [] && i <= |s|
    ensures r.Some? ==> i <= r.value <= |s|
    decreases |groups|, 0, |groups[0]| - k
  {
    if k >= |groups[0]| then None
    else
      var w := groups[0][k];
      if LiteralAt(s, i, w) && SpaceRunEnd(s, i + |w|) > i + |w| then
        match PhraseEnd(groups[1..], s, SpaceRunEnd(s, i + |w|))
        case Some(e) => Some(e)
        case None => AlternativeEnd(groups, s, i, k + 1)
      else AlternativeEnd(groups, s, i, k + 1)
  }

  /** Two alternatives that differ, ignoring case, at a position both have:
      they cannot both occur at the same place. */
  predicate Apart(a: string, b: string)
    decreases |a|
  {
    a != [] && b != [] && (Lower(a[0]) != Lower(b[0]) || Apart(a[1..], b[1..]))
  }

  /** Where a word occurs, its tail occurs one position further on. */
  lemma LiteralTail(s: string, i: nat, w: string)
    requires w != []
    ensures LiteralAt(s, i, w) ==> LiteralAt(s, i + 1, w[1..])
  {
    if LiteralAt(s, i, w) {
      forall k | 0 <= k < |w| - 1 ensures Lower(s[i + 1 + k]) == Lower(w[1..][k]) {
        assert s[i + 1 + k] == s[i + (k + 1)];
      }
    }
  }

  lemma {:induction false} ApartExcludes(a: string, b: string, s: string, i: nat)
    requires Apart(a, b) && LiteralAt(s, i, a)
    ensures !LiteralAt(s, i, b)
    decreases |a|
  {
    if Lower(a[0]) == Lower(b[0]) {
      LiteralTail(s, i, a);
      LiteralTail(s, i, b);
      ApartExcludes(a[1..], b[1..], s, i + 1);
    }
  }

  /** Within each word group, any two different alternatives are apart, so at
      most one of them occurs at a given place. */
  predicate Unambiguous(groups: seq<seq<string>>)
  {
    forall j, p, q ::
      (0 <= j < |groups| && 0 <= p < |groups[j]| && 0 <= q < |groups[j]| && groups[j][p] != groups[j][q])
      ==> Apart(groups[j][p], groups[j][q])
  }

  /** Words, each followed by its run of white space. */
  function Spell(words: seq<string>, gaps: seq<string>): string
    requires |words| == |gaps|
  {
    if words == [] then [] else words[0] + gaps[0] + Spell(words[1..], gaps[1..])
  }

  /** `word` is, ignoring case, one of the alternatives of `group`. */
  predicate SaysWord(word: string, group: seq<string>)
  {
    exists k :: 0 <= k < |group| && |group[k]| == |word| && LiteralAt(word, 0, group[k])
  }

  /** The alternative that occurs at `i` is tried, whatever comes before it
      in the group. */
  lemma {:induction false} AlternativeFinds(groups: seq<seq<string>>, s: string, i: nat, k: nat, ka: nat,
                                            next: nat, e: nat)
    requires groups != [] && k <= ka < |groups[0]|
    requires LiteralAt(s, i, groups[0][ka])
    requires next == SpaceRunEnd(s, i + |groups[0][ka]|) > i + |groups[0][ka]|
    requires PhraseEnd(groups[1..], s, next) == Some(e)
    requires forall b :: b in groups[0] && LiteralAt(s, i, b) ==> b == groups[0][ka]
    ensures AlternativeEnd(groups, s, i, k) == Some(e)
    decreases ka - k
  {
    if !LiteralAt(s, i, groups[0][k]) {
      AlternativeFinds(groups, s, i, k + 1, ka, next, e);
    } else {
      assert groups[0][k] in groups[0];
    }
  }

  /** A word followed by its white space opens the text at `i`: the
      alternative it spells occurs there and the run after it is the gap. */
  lemma OpeningWord(s: string, i: nat, w: string, g: string, a: string)
    requires i + |w| + |g| <= |s| && s[i..i + |w| + |g|] == w + g
    requires |a| == |w| && LiteralAt(w, 0, a)
    requires g != [] && AllSpace(g)
    requires i + |w| + |g| == |s| || !IsSpace(s[i + |w| + |g|])
    ensures LiteralAt(s, i, a)
    ensures SpaceRunEnd(s, i + |w|) == i + |w| + |g| > i + |w|
  {
    forall k | 0 <= k < |a| ensures Lower(s[i + k]) == Lower(a[k]) {
      assert s[i + k] == (w + g)[k] == w[k];
    }
    forall k | i + |w| <= k < i + |w| + |g| ensures IsSpace(s[k]) {
      assert s[k] == (w + g)[k - i] == g[k - i - |w|];
    }
    SpaceRunEndAt(s, i + |w|, i + |w| + |g|);
  }

  /** In an unambiguous phrase, the alternative found at `i` is the only one
      of its group that occurs there. */
  lemma OnlyAlternative(groups: seq<seq<string>>, s: string, i: nat, ka: nat)
    requires groups != [] && Unambiguous(groups) && ka < |groups[0]| && LiteralAt(s, i, groups[0][ka])
    ensures forall b :: b in groups[0] && LiteralAt(s, i, b) ==> b == groups[0][ka]
  {
    forall b | b in groups[0] && LiteralAt(s, i, b) ensures b == groups[0][ka] {
      if b != groups[0][ka] {
        var p :| 0 <= p < |groups[0]| && groups[0][p] == b;
        assert Apart(groups[0][p], groups[0][ka]);
        ApartExcludes(b, groups[0][ka], s, i);
      }
    }
  }

  lemma UnambiguousTail(groups: seq<seq<string>>)
    requires groups != [] && Unambiguous(groups)
    ensures Unambiguous(groups[1..])
  {
    forall j, p, r | 0 <= j < |groups[1..]| && 0 <= p < |groups[1..][j]| && 0 <= r < |groups[1..][j]|
      && groups[1..][j][p] != groups[1..][j][r]
      ensures Apart(groups[1..][j][p], groups[1..][j][r])
    {
      assert groups[1..][j] == groups[j + 1];
    }
  }

  /** The words and gaps a phrase is spelled with. */
  predicate Spells(groups: seq<seq<string>>, words: seq<string>, gaps: seq<string>)
  {
    |words| == |groups| && |gaps| == |groups|
    && (forall j :: 0 <= j < |groups| ==> SaysWord(words[j], groups[j]))
    && (forall j :: 0 <= j < |words| ==> words[j] != [] && !IsSpace(words[j][0]))
    && (forall j :: 0 <= j < |gaps| ==> gaps[j] != [] && AllSpace(gaps[j]))
  }

  lemma SpellsTail(groups: seq<seq<string>>, words: seq<string>, gaps: seq<string>)
    requires groups != [] && Spells(groups, words, gaps)
    ensures Spells(groups[1..], words[1..], gaps[1..])
  {
    forall j | 0 <= j < |groups[1..]| ensures SaysWord(words[1..][j], groups[1..][j]) {
      assert words[1..][j] == words[j + 1] && groups[1..][j] == groups[j + 1];
    }
  }

  /** Where `a + b` sits at `i`, `a` sits at `i` and `b` right after it. */
  lemma SliceOfConcat(s: string, i: nat, a: string, b: string)
    requires i + |a + b| <= |s| && s[i..i + |a + b|] == a + b
    ensures s[i..i + |a|] == a && s[i + |a|..i + |a| + |b|] == b
  {
    assert s[i..i + |a|] == s[i..i + |a + b|][..|a|];
    assert s[i + |a|..i + |a| + |b|] == s[i..i + |a + b|][|a|..];
  }

  /** A spelled phrase starts with the first character of its first word. */
  lemma SpellFirst(words: seq<string>, gaps: seq<string>)
    requires |words| == |gaps| && words != [] && words[0] != []
    ensures Spell(words, gaps) != [] && Spell(words, gaps)[0] == words[0][0]
  {
  }

  /** Where a spelled phrase sits at `i`, its first word and gap sit at `i`
      and the rest of the phrase right after them. */
  lemma SpellSplit(words: seq<string>, gaps: seq<string>, s: string, i: nat)
    requires |words| == |gaps| && words != []
    requires |words| > 1 ==> words[1] != []
    requires i + |Spell(words, gaps)| <= |s| && s[i..i + |Spell(words, gaps)|] == Spell(words, gaps)
    ensures var q := i + |words[0]| + |gaps[0]|;
      var tail := Spell(words[1..], gaps[1..]);
      s[i..q] == words[0] + gaps[0] && q + |tail| == i + |Spell(words, gaps)|
      && s[q..q + |tail|] == tail && (|words| > 1 ==> s[q] == words[1][0])
  {
    var head := words[0] + gaps[0];
    var tail := Spell(words[1..], gaps[1..]);
    assert Spell(words, gaps) == head + tail;
    SliceOfConcat(s, i, head, tail);
    var q := i + |head|;
    if |words| > 1 {
      SpellFirst(words[1..], gaps[1..]);
      assert s[q] == s[q..q + |tail|][0];
    }
  }

  /** The alternative of `group` that `word` says. */
  lemma PickAlternative(word: string, group: seq<string>) returns (ka: nat)
    requires SaysWord(word, group)
    ensures ka < |group| && |group[ka]| == |word| && LiteralAt(word, 0, group[ka])
  {
    ka :| 0 <= ka < |group| && |group[ka]| == |word| && LiteralAt(word, 0, group[ka]);
  }

  /** An unambiguous phrase matches from `i` when one alternative of its
      first group occurs there and is followed by white space
      after which the rest of the phrase matches. */
  lemma PhraseStep(groups: seq<seq<string>>, s: string, i: nat, ka: nat, next: nat, e: nat)
    requires groups != [] && Unambiguous(groups) && ka < |groups[0]| && LiteralAt(s, i, groups[0][ka])
    requires next == SpaceRunEnd(s, i + |groups[0][ka]|) > i + |groups[0][ka]|
    requires PhraseEnd(groups[1..], s, next) == Some(e)
    ensures PhraseEnd(groups, s, i) == Some(e)
  {
    OnlyAlternative(groups, s, i, ka);
    AlternativeFinds(groups, s, i, 0, ka, next, e);
  }

  /** Where a spelled phrase sits at `i`, the alternative its first word
      says occurs at `i`, white space runs to the second word, and the rest
      of the phrase sits there, ending where the whole phrase ends. */
  lemma PhraseHead(groups: seq<seq<string>>, words: seq<string>, gaps: seq<string>, s: string, i: nat)
    returns (ka: nat)
    requires groups != [] && Spells(groups, words, gaps)
    requires i + |Spell(words, gaps)| <= |s| && s[i..i + |Spell(words, gaps)|] == Spell(words, gaps)
    requires i + |Spell(words, gaps)| == |s| || !IsSpace(s[i + |Spell(words, gaps)|])
    ensures ka < |groups[0]| && LiteralAt(s, i, groups[0][ka])
    ensures var q := i + |words[0]| + |gaps[0]|;
      var tail := Spell(words[1..], gaps[1..]);
      SpaceRunEnd(s, i + |groups[0][ka]|) == q > i + |groups[0][ka]|
      && q + |tail| == i + |Spell(words, gaps)| && s[q..q + |tail|] == tail
      && (q + |tail| == |s| || !IsSpace(s[q + |tail|]))
  {
    var w, g := words[0], gaps[0];
    var q := i + |w| + |g|;
    assert |words| > 1 ==> words[1] != [];
    SpellSplit(words, gaps, s, i);
    if |words| == 1 {
      assert words[1..] == [] && gaps[1..] == [];
      assert q == i + |Spell(words, gaps)|;
    }
    ka := PickAlternative(w, groups[0]);
    OpeningWord(s, i, w, g, groups[0][ka]);
  }

  /** What a phrase is spelled with, less its first word, spells the rest. */
  lemma PhraseTail(groups: seq<seq<string>>, words: seq<string>, gaps: seq<string>)
    requires groups != [] && Spells(groups, words, gaps) && Unambiguous(groups)
    ensures Spells(groups[1..], words[1..], gaps[1..]) && Unambiguous(groups[1..])
  {
    UnambiguousTail(groups);
    SpellsTail(groups, words, gaps);
  }

  /** A phrase whose words open the text at `i`, each followed by white
      space, matches up to the end of the last white-space run. */
  lemma {:induction false} PhraseOpensAt(groups: seq<seq<string>>, words: seq<string>, gaps: seq<string>,
                                         s: string, i: nat)
    requires Spells(groups, words, gaps) && Unambiguous(groups)
    requires i + |Spell(words, gaps)| <= |s| && s[i..i + |Spell(words, gaps)|] == Spell(words, gaps)
    requires i + |Spell(words, gaps)| == |s| || !IsSpace(s[i + |Spell(words, gaps)|])
    ensures PhraseEnd(groups, s, i) == Some(i + |Spell(words, gaps)|)
    decreases |groups|
  {
    if groups != [] {
      var ka := PhraseHead(groups, words, gaps, s, i);
      var q := i + |words[0]| + |gaps[0]|;
      PhraseTail(groups, words, gaps);
      PhraseOpensAt(groups[1..], words[1..], gaps[1..], s, q);
      PhraseStep(groups, s, i, ka, q, i + |Spell(words, gaps)|);
    } else {
      assert words == [] && Spell(words, gaps) == [];
    }
  }

  lemma {:induction false} AlternativeMisses(groups: seq<seq<string>>, s: string, i: nat, k: nat)
    requires groups != [] && i <= |s|
    requires forall j :: 0 <= j < |groups[0]| ==> !LiteralAt(s, i, groups[0][j])
    ensures AlternativeEnd(groups, s, i, k).None?
    decreases |groups[0]| - k
  {
    if k < |groups[0]| {
      AlternativeMisses(groups, s, i, k + 1);
    }
  }

  /** A phrase whose first word does not occur at `i` does not match there. */
  lemma PhraseMisses(groups: seq<seq<string>>, s: string, i: nat)
    requires groups != [] && i <= |s|
    requires forall j :: 0 <= j < |groups[0]| ==> !LiteralAt(s, i, groups[0][j])
    ensures PhraseEnd(groups, s, i).None?
  {
    AlternativeMisses(groups, s, i, 0);
  }

  /** A one-word phrase `^w\s+` matches exactly when `w` opens the text and
      white space follows it, and then it takes the whole white-space run. */
  lemma SingleWordPhrase(w: string, s: string)
    ensures PhraseEnd([[w]], s, 0) ==
      if |w| < |s| && LiteralAt(s, 0, w) && IsSpace(s[|w|]) then Some(SpaceRunEnd(s, |w|)) else None
  {
    var groups := [[w]];
    assert groups[1..] == [];
    assert AlternativeEnd(groups, s, 0, 1).None?;
    if |w| <= |s| {
      var e := SpaceRunEnd(s, |w|);
      assert e > |w| <==> |w| < |s| && IsSpace(s[|w|]);
      if LiteralAt(s, 0, w) && e > |w| {
        assert PhraseEnd(groups[1..], s, e) == Some(e);
        assert AlternativeEnd(groups, s, 0, 0) == Some(e);
      } else {
        assert AlternativeEnd(groups, s, 0, 0).None?;
      }
    } else {
      assert !LiteralAt(s, 0, w);
      assert AlternativeEnd(groups, s, 0, 0).None?;
    }
  }
}
