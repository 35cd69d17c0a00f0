/**
  The sentence normalisers: `formatSentence`, `formatBullet` and
  `polishObjective`.
 */
module Format {
  import opened Wrappers
  import opened Text
  import opened Patterns

  /** The list markers `[\-\*•]`. */
  predicate IsBulletMarker(c: char)
  {
    c == '-' || c == '*' || c == '\U{2022}'
  }

  /** `s.replace(/^[\-\*•]\s*\/, '')`: drops one leading marker and the white
      space after it; only the marker's own visible character is lost. */
  function StripBullet(s: string): (r: string)
    ensures |r| <= |s| && r == s[|s| - |r|..]
    ensures s != [] && !IsBulletMarker(s[0]) ==> r == s
    ensures s != [] && IsBulletMarker(s[0]) ==>
      Visible(s) == [s[0]] + Visible(r) && (r == [] || !IsSpace(r[0]))
  {
    if s != [] && IsBulletMarker(s[0]) then
      var e := SpaceRunEnd(s, 1);
      assert Visible(s) == [s[0]] + Visible(s[1..]);
      DropSpacesKeepsVisible(s[1..], e - 1);
      assert s[1..][e - 1..] == s[e..];
      s[e..]
    else s
  }

  /** The text ends with one of `. ! ? )`: what `/[.!?)]$/` tests. */
  predicate EndsTerminal(s: string)
  {
    s != [] && s[|s| - 1] in ".!?)"
  }

  /** Appends `.` unless the text already ends with terminal punctuation. */
  function EnsureTerminal(s: string): (r: string)
    ensures EndsTerminal(r)
    ensures r == s || r == s + "."
    ensures r == s <==> EndsTerminal(s)
  {
    if EndsTerminal(s) then s else s + "."
  }

  /** `formatSentence`: trims, drops one leading list marker and makes sure the
      sentence ends with terminal punctuation; blank input gives `''`. */
  function FormatSentence(sentence: string): (r: string)
    ensures r == [] <==> !HasContent(sentence)
    ensures r != [] ==> EndsTerminal(r)
  {
    TrimEmptyIff(sentence);
    var t := Trim(sentence);
    if t == [] then [] else EnsureTerminal(StripBullet(t))
  }

  /** Formatting keeps every visible character of the sentence except one
      leading list marker, and adds at most a final `.`. */
  lemma FormatSentenceKeepsText(sentence: string)
    requires HasContent(sentence)
    ensures var t := Trim(sentence);
      var lead := if t != [] && IsBulletMarker(t[0]) then [t[0]] else [];
      var v := Visible(FormatSentence(sentence));
      Visible(sentence) == lead + v || Visible(sentence) + "." == lead + v
  {
    var t := Trim(sentence);
    TrimKeepsVisible(sentence);
    TrimEmptyIff(sentence);
    var lead := if IsBulletMarker(t[0]) then [t[0]] else [];
    var b := StripBullet(t);
    if IsBulletMarker(t[0]) {
      assert Visible(t) == [t[0]] + Visible(b);
    } else {
      assert b == t;
    }
    var vs, vb := Visible(sentence), Visible(b);
    assert vs == lead + vb;
    var r := EnsureTerminal(b);
    assert r == FormatSentence(sentence);
    if r != b {
      assert r == b + ".";
      VisibleWithStop(b);
      AppendAssoc(lead, vb, ".");
    } else {
      assert Visible(r) == vb;
    }
  }

  /** `formatBullet`: a formatted sentence without one final `.`. */
  function FormatBullet(sentence: string): (r: string)
    ensures var f := FormatSentence(sentence);
      if f != [] && f[|f| - 1] == '.' then r + "." == f else r == f
  {
    var f := FormatSentence(sentence);
    if f != [] && f[|f| - 1] == '.' then
      ButLast(f);
      f[..|f| - 1]
    else f
  }

  /** The filler phrases `polishObjective` removes, in the order it tries them:
      each is a list of word groups, each group a list of alternatives. */
  const Please: seq<seq<string>> := [["please"]]
  const ModalYou: seq<seq<string>> := [["can", "could", "would", "will"], ["you"]]
  const NeedYouTo: seq<seq<string>> := [["i"], ["need", "want"], ["you", "ya"], ["to"]]
  const NeedHelpTo: seq<seq<string>> := [["i"], ["need", "want"], ["help"], ["to"]]
  const HelpMeTo: seq<seq<string>> := [["help"], ["me"], ["to"]]
  const Make: seq<seq<string>> := [["make"]]

  /** `a` is a tail of `b`. */
  predicate IsSuffix(a: string, b: string)
  {
    |a| <= |b| && a == b[|b| - |a|..]
  }

  /** `s.replace(/^…\s+/i, '')` for an anchored phrase. */
  function StripLeading(s: string, phrase: seq<seq<string>>): (r: string)
    ensures IsSuffix(r, s)
  {
    match PhraseEnd(phrase, s, 0)
    case Some(e) => s[e..]
    case None => s
  }

  /** `s.replace(/^make\s+/i, 'Create ')`. */
  function ReplaceLeadingMake(s: string): (r: string)
    ensures r == s || (|r| >= 7 && r[..7] == "Create " && IsSuffix(r[7..], s))
    ensures r == if 4 < |s| && LiteralAt(s, 0, "make") && IsSpace(s[4]) then "Create " + s[SpaceRunEnd(s, 4)..] else s
  {
    SingleWordPhrase("make", s);
    match PhraseEnd(Make, s, 0)
    case Some(e) =>
      var r := "Create " + s[e..];
      assert r[7..] == s[e..];
      r
    case None => s
  }

  /** The objective with its filler removed, before punctuation is added. */
  function PolishedCore(t: string): string
  {
    var t1 := StripLeading(t, Please);
    var t2 := StripLeading(t1, ModalYou);
    var t3 := StripLeading(t2, NeedYouTo);
    var t4 := StripLeading(t3, NeedHelpTo);
    var t5 := StripLeading(t4, HelpMeTo);
    ReplaceLeadingMake(t5)
  }

  /** `polishObjective`: strips leading filler, turns a leading "make" into
      "Create" and ends the sentence with punctuation. */
  function PolishObjective(text: string): (r: string)
    ensures text == [] ==> r == []
    ensures text != [] ==> EndsTerminal(r)
  {
    if text == [] then [] else EnsureTerminal(PolishedCore(Trim(text)))
  }

  lemma SuffixTransitive(a: string, b: string, c: string)
    requires IsSuffix(a, b) && IsSuffix(b, c)
    ensures IsSuffix(a, c)
  {
    assert c[|c| - |b|..][|b| - |a|..] == c[|c| - |a|..];
  }

  /** Polishing removes only a prefix of the trimmed request: what remains is a
      tail of it, possibly behind "Create ", with at most a `.` added. */
  lemma PolishKeepsTail(text: string)
    requires text != []
    ensures var c := PolishedCore(Trim(text));
      PolishObjective(text) == EnsureTerminal(c)
      && (IsSuffix(c, Trim(text)) || (|c| >= 7 && c[..7] == "Create " && IsSuffix(c[7..], Trim(text))))
  {
    var t := Trim(text);
    var t1 := StripLeading(t, Please);
    var t2 := StripLeading(t1, ModalYou);
    var t3 := StripLeading(t2, NeedYouTo);
    var t4 := StripLeading(t3, NeedHelpTo);
    var t5 := StripLeading(t4, HelpMeTo);
    SuffixTransitive(t2, t1, t);
    SuffixTransitive(t3, t2, t);
    SuffixTransitive(t4, t3, t);
    SuffixTransitive(t5, t4, t);
    var c := ReplaceLeadingMake(t5);
    if c != t5 {
      SuffixTransitive(c[7..], t5, t);
    }
  }

  /** A request with none of the filler phrases and no leading "make" is only
      trimmed and punctuated. */
  lemma PolishPlainRequest(text: string)
    requires text != []
    requires PhraseEnd(Please, Trim(text), 0).None? && PhraseEnd(ModalYou, Trim(text), 0).None?
    requires PhraseEnd(NeedYouTo, Trim(text), 0).None? && PhraseEnd(NeedHelpTo, Trim(text), 0).None?
    requires PhraseEnd(HelpMeTo, Trim(text), 0).None? && PhraseEnd(Make, Trim(text), 0).None?
    ensures PolishObjective(text) == EnsureTerminal(Trim(text))
  {
  }

  /** Any two different alternatives of the group are apart. */
  predicate GroupApart(group: seq<string>)
  {
    forall p, q :: 0 <= p < |group| && 0 <= q < |group| && group[p] != group[q] ==> Apart(group[p], group[q])
  }

  lemma UnambiguousGroups(groups: seq<seq<string>>)
    requires forall j :: 0 <= j < |groups| ==> GroupApart(groups[j])
    ensures Unambiguous(groups)
  {
  }

  lemma ModalsApart()
    ensures GroupApart(["can", "could", "would", "will"])
  {
    var g := ["can", "could", "would", "will"];
    assert Apart(g[0], g[1]) && Apart(g[1], g[0]) by {
      assert Apart(g[0][1..], g[1][1..]) && Apart(g[1][1..], g[0][1..]);
    }
    assert Apart(g[2], g[3]) && Apart(g[3], g[2]) by {
      assert Apart(g[2][1..], g[3][1..]) && Apart(g[3][1..], g[2][1..]);
    }
    assert Apart(g[0], g[2]) && Apart(g[2], g[0]) && Apart(g[0], g[3]) && Apart(g[3], g[0]);
    assert Apart(g[1], g[2]) && Apart(g[2], g[1]) && Apart(g[1], g[3]) && Apart(g[3], g[1]);
  }

  lemma PairApart(a: string, b: string)
    requires a != [] && b != [] && Lower(a[0]) != Lower(b[0])
    ensures GroupApart([a, b])
  {
  }

  /** Within each word group of every filler phrase, the alternatives differ
      at some position, so the words are recognised one way only. */
  lemma FillersUnambiguous()
    ensures Unambiguous(Please) && Unambiguous(ModalYou) && Unambiguous(NeedYouTo)
    ensures Unambiguous(NeedHelpTo) && Unambiguous(HelpMeTo) && Unambiguous(Make)
  {
    ModalsApart();
    PairApart("need", "want");
    assert Apart("you", "ya") && Apart("ya", "you") by {
      assert Apart("ou", "a") && Apart("a", "ou");
    }
    UnambiguousGroups(Please);
    UnambiguousGroups(ModalYou);
    UnambiguousGroups(NeedYouTo);
    UnambiguousGroups(NeedHelpTo);
    UnambiguousGroups(HelpMeTo);
    UnambiguousGroups(Make);
  }

  /** A filler phrase that opens the text is removed together with the
      white space after each of its words, in whatever letter case it is
      written. */
  lemma StripLeadingOpens(phrase: seq<seq<string>>, words: seq<string>, gaps: seq<string>, rest: string)
    requires Spells(phrase, words, gaps) && Unambiguous(phrase)
    requires rest == [] || !IsSpace(rest[0])
    ensures StripLeading(Spell(words, gaps) + rest, phrase) == rest
  {
    var s := Spell(words, gaps) + rest;
    assert s[0..|Spell(words, gaps)|] == Spell(words, gaps);
    PhraseOpensAt(phrase, words, gaps, s, 0);
    assert s[|Spell(words, gaps)|..] == rest;
  }

  /** A text that does not start with any first word of a phrase keeps it. */
  lemma StripLeadingMisses(s: string, phrase: seq<seq<string>>)
    requires phrase != []
    requires forall j :: 0 <= j < |phrase[0]| ==> !LiteralAt(s, 0, phrase[0][j])
    ensures StripLeading(s, phrase) == s
  {
    PhraseMisses(phrase, s, 0);
  }

  /** A text whose first letter starts none of the first words of a phrase
      keeps it. */
  lemma FirstCharMisses(s: string, phrase: seq<seq<string>>)
    requires s != [] && phrase != []
    requires forall j :: 0 <= j < |phrase[0]| ==> phrase[0][j] != [] && Lower(phrase[0][j][0]) != Lower(s[0])
    ensures StripLeading(s, phrase) == s
  {
    StripLeadingMisses(s, phrase);
  }

  /** The one-word filler "please" is removed exactly when it opens the text
      and white space follows it. */
  lemma StripPlease(s: string)
    ensures StripLeading(s, Please) ==
      if 6 < |s| && LiteralAt(s, 0, "please") && IsSpace(s[6]) then s[SpaceRunEnd(s, 6)..] else s
  {
    SingleWordPhrase("please", s);
  }

  /** "Could you …": the modal question opener is removed. */
  lemma StripCouldYou(rest: string)
    requires rest == [] || !IsSpace(rest[0])
    ensures StripLeading("Could you " + rest, ModalYou) == rest
  {
    var words, gaps := ["Could", "you"], [" ", " "];
    assert LiteralAt(words[0], 0, ModalYou[0][1]) && LiteralAt(words[1], 0, ModalYou[1][0]);
    assert Spells(ModalYou, words, gaps);
    assert Spell(words, gaps) == "Could you ";
    FillersUnambiguous();
    StripLeadingOpens(ModalYou, words, gaps, rest);
  }

  /** "Please …": the leading "please" is removed with its white space. */
  lemma StripPleaseWord(rest: string)
    requires rest == [] || !IsSpace(rest[0])
    ensures StripLeading("Please " + rest, Please) == rest
  {
    var s := "Please " + rest;
    StripPlease(s);
    assert LiteralAt(s, 0, "please");
    SpaceRunEndAt(s, 6, 7);
    assert s[7..] == rest;
  }

  /** A text opening with "make" passes the question, need and help fillers
      unchanged. */
  lemma MakePassesFillers(t: string)
    requires |t| >= 4 && t[..4] == "make"
    ensures StripLeading(StripLeading(StripLeading(StripLeading(t, ModalYou), NeedYouTo), NeedHelpTo), HelpMeTo) == t
  {
    assert t[0] == 'm';
    FirstCharMisses(t, ModalYou);
    FirstCharMisses(t, NeedYouTo);
    FirstCharMisses(t, NeedHelpTo);
    FirstCharMisses(t, HelpMeTo);
  }

  /** "make X" becomes "Create X". */
  lemma MakeBecomesCreate(x: string)
    requires x != [] && !IsSpace(x[0])
    ensures ReplaceLeadingMake("make " + x) == "Create " + x
  {
    var t := "make " + x;
    assert LiteralAt(t, 0, "make") && IsSpace(t[4]);
    SpaceRunEndAt(t, 4, 5);
    assert t[5..] == x;
  }

  /** "Please make X" is polished to "Create X", with a final `.` unless X
      already ends with terminal punctuation. */
  lemma PoliteMakeRequest(x: string)
    requires x != [] && !IsSpace(x[0]) && !IsSpace(x[|x| - 1])
    ensures PolishObjective("Please make " + x) == EnsureTerminal("Create " + x)
  {
    var t1 := "make " + x;
    var text := "Please make " + x;
    assert text == "Please " + t1;
    TrimClean(text);
    StripPleaseWord(t1);
    assert t1[..4] == "make";
    MakePassesFillers(t1);
    MakeBecomesCreate(x);
  }
}

/** The arithmetic helper of the floating button's placement. */
module Placement {

  /** `Math.min(Math.max(value, min), max)`. */
  function Clamp(value: int, min: int, max: int): (r: int)
    ensures r <= max
    ensures min <= max ==> min <= r
    ensures min <= value <= max ==> r == value
    ensures value < min <= max ==> r == min
    ensures max < value ==> r == max
    ensures max < min ==> r == max
  {
    var lo := if value > min then value else min;
    if lo < max then lo else max
  }
}
