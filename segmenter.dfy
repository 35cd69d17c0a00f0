/**
  `splitSentences`: raw text to an ordered list of cleaned sentences. The text
  is cut into lines, each line loses one leading list marker and is cut at
  sentence boundaries (`.`, `!` or `?`, then white space, then an upper-case
  letter or a digit), and every piece is collapsed to single spaces.
 */
module Segmenter {
  import opened Wrappers
  import opened Text
  import opened Patterns
  import opened Format

  predicate IsTerminal(c: char)
  {
    c == '.' || c == '!' || c == '?'
  }

  predicate IsUpperOrDigit(c: char)
  {
    'A' <= c <= 'Z' || '0' <= c <= '9'
  }

  /** A match of `/(?<=[.!?])\s+(?=[A-Z0-9])/` starts at `p`: the greedy white
      space run from `p` is preceded by terminal punctuation and followed by an
      upper-case letter or a digit. */
  predicate BoundaryAt(s: string, p: nat)
  {
    0 < p < |s| && IsTerminal(s[p - 1]) && IsSpace(s[p])
    && SpaceRunEnd(s, p) < |s| && IsUpperOrDigit(s[SpaceRunEnd(s, p)])
  }

  /** The leftmost boundary at or after `from`. */
  function FirstBoundary(s: string, from: nat): (r: Option<nat>)
    ensures r.Some? ==> from <= r.value && BoundaryAt(s, r.value)
    ensures r.Some? ==> forall p :: from <= p < r.value ==> !BoundaryAt(s, p)
    ensures r.None? ==> forall p :: from <= p ==> !BoundaryAt(s, p)
    decreases |s| - from
  {
    if from >= |s| then None
    else if BoundaryAt(s, from) then Some(from)
    else FirstBoundary(s, from + 1)
  }

  /** One piece of a split line and the white space that followed it. */
  datatype Piece = Piece(text: string, gap: string)

  /** The pieces glued back together with the white space between them. */
  function Unsplit(ps: seq<Piece>): string
  {
    if ps == [] then [] else ps[0].text + ps[0].gap + Unsplit(ps[1..])
  }

  /** `s.split(/(?<=[.!?])\s+(?=[A-Z0-9])/)` from position `i` on, keeping the
      white space each cut removes: the piece before the leftmost boundary,
      then the pieces after it. */
  function PiecesFrom(s: string, i: nat): seq<Piece>
    requires i <= |s|
    decreases |s| - i
  {
    match FirstBoundary(s, i)
    case None => [Piece(s[i..], [])]
    case Some(p) =>
      var q := SpaceRunEnd(s, p);
      [Piece(s[i..p], s[p..q])] + PiecesFrom(s, q)
  }

  function Pieces(s: string): seq<Piece>
  {
    PiecesFrom(s, 0)
  }

  /** The pieces with their gaps give back the line. */
  lemma {:induction false} PiecesRoundTrip(s: string, i: nat)
    requires i <= |s|
    ensures Unsplit(PiecesFrom(s, i)) == s[i..]
    decreases |s| - i
  {
    match FirstBoundary(s, i)
    case None =>
      assert Unsplit([Piece(s[i..], [])]) == s[i..] + [] + [];
    case Some(p) =>
      var q := SpaceRunEnd(s, p);
      PiecesRoundTrip(s, q);
      assert PiecesFrom(s, i)[1..] == PiecesFrom(s, q);
      assert s[i..] == s[i..p] + s[p..q] + s[q..];
  }

  /** Only the last piece has no gap. */
  lemma {:induction false} PiecesLastGap(s: string, i: nat)
    requires i <= |s|
    ensures var r := PiecesFrom(s, i); r[|r| - 1].gap == []
    decreases |s| - i
  {
    match FirstBoundary(s, i)
    case None =>
    case Some(p) =>
      var q := SpaceRunEnd(s, p);
      PiecesLastGap(s, q);
      assert PiecesFrom(s, i)[1..] == PiecesFrom(s, q);
  }

  /** The piece that starts at a visible character starts with it. */
  lemma PieceStartsAt(s: string, i: nat)
    requires i < |s| && !IsSpace(s[i])
    ensures PiecesFrom(s, i)[0].text != [] && PiecesFrom(s, i)[0].text[0] == s[i]
  {
  }

  /** One cut: the white-space run after a boundary, with the piece before it. */
  predicate GoodCut(pc: Piece)
  {
    pc.gap != [] && AllSpace(pc.gap) && pc.text != [] && IsTerminal(pc.text[|pc.text| - 1])
  }

  /** A slice of white space is all white space. */
  lemma SpaceSlice(s: string, p: nat, q: nat)
    requires p <= q <= |s|
    requires forall k :: p <= k < q ==> IsSpace(s[k])
    ensures AllSpace(s[p..q])
  {
    forall k | 0 <= k < q - p ensures IsSpace(s[p..q][k]) { assert s[p..q][k] == s[p + k]; }
  }

  lemma FirstPieceIs(s: string, i: nat)
    requires i <= |s| && FirstBoundary(s, i).Some?
    ensures var p := FirstBoundary(s, i).value;
      PiecesFrom(s, i)[0] == Piece(s[i..p], s[p..SpaceRunEnd(s, p)])
  {
  }

  lemma FirstCut(s: string, i: nat)
    requires i == 0 || (i < |s| && !IsSpace(s[i]))
    requires FirstBoundary(s, i).Some?
    ensures GoodCut(PiecesFrom(s, i)[0])
  {
    var p := FirstBoundary(s, i).value;
    var q := SpaceRunEnd(s, p);
    assert i < p < q;
    SpaceSlice(s, p, q);
    FirstPieceIs(s, i);
  }

  /** Every cut removes a non-empty white-space run that follows terminal
      punctuation. */
  lemma {:induction false} PiecesCuts(s: string, i: nat)
    requires i == 0 || (i < |s| && !IsSpace(s[i]))
    ensures forall k :: 0 <= k < |PiecesFrom(s, i)| - 1 ==> GoodCut(PiecesFrom(s, i)[k])
    decreases |s| - i
  {
    match FirstBoundary(s, i)
    case None =>
    case Some(p) =>
      var q := SpaceRunEnd(s, p);
      var rest := PiecesFrom(s, q);
      assert IsUpperOrDigit(s[q]);
      PiecesCuts(s, q);
      FirstCut(s, i);
      var r := PiecesFrom(s, i);
      assert r == [r[0]] + rest;
      forall k | 0 < k < |r| - 1 ensures GoodCut(r[k]) {
        assert r[k] == rest[k - 1];
        assert GoodCut(rest[k - 1]);
      }
  }

  /** Every piece after the first starts with an upper-case letter or a digit. */
  lemma {:induction false} PiecesStarts(s: string, i: nat)
    requires i <= |s|
    ensures var r := PiecesFrom(s, i); forall k :: 0 < k < |r| ==> r[k].text != [] && IsUpperOrDigit(r[k].text[0])
    decreases |s| - i
  {
    match FirstBoundary(s, i)
    case None =>
    case Some(p) =>
      var q := SpaceRunEnd(s, p);
      var rest := PiecesFrom(s, q);
      PiecesStarts(s, q);
      assert IsUpperOrDigit(s[q]);
      PieceStartsAt(s, q);
      var r := PiecesFrom(s, i);
      assert r == [r[0]] + rest;
      forall k | 0 < k < |r| ensures r[k].text != [] && IsUpperOrDigit(r[k].text[0]) {
        assert r[k] == rest[k - 1];
      }
  }

  function Texts(ps: seq<Piece>): (r: seq<string>)
    ensures |r| == |ps| && forall k :: 0 <= k < |ps| ==> r[k] == ps[k].text
  {
    if ps == [] then [] else [ps[0].text] + Texts(ps[1..])
  }

  /** The strings `split` returns for a line. */
  function SplitAtBoundaries(s: string): seq<string>
  {
    Texts(Pieces(s))
  }

  /** `text.split(/\n+/).map((line) => line.trim()).filter(Boolean)`. Splitting
      at every newline instead of at runs of them only adds empty pieces, which
      the filter drops. */
  function Lines(text: string): seq<string>
  {
    NonEmpty(TrimAll(SplitWhere(text, IsNewline)))
  }

  /** What the loop body pushes for one line. */
  function LineSentences(line: string): seq<string>
  {
    var cleanedLine := StripBullet(line);
    var parts := NonEmpty(TrimAll(SplitAtBoundaries(cleanedLine)));
    if parts == [] then [cleanedLine] else parts
  }

  /** What the loop has pushed after the given lines. */
  function Gather(lines: seq<string>): seq<string>
  {
    if lines == [] then []
    else Gather(lines[..|lines| - 1]) + LineSentences(lines[|lines| - 1])
  }

  /** Collapsed strings are clean, and the filter keeps only non-empty ones. */
  lemma CollapsedAreClean(xs: seq<string>)
    ensures forall k :: 0 <= k < |NonEmpty(CollapseAll(xs))| ==>
      NonEmpty(CollapseAll(xs))[k] != [] && IsClean(NonEmpty(CollapseAll(xs))[k])
  {
    var c := CollapseAll(xs);
    var r := NonEmpty(c);
    forall k | 0 <= k < |r| ensures r[k] != [] && IsClean(r[k]) {
      NonEmptyFrom(c, k);
      var j :| 0 <= j < |c| && c[j] == r[k];
      CollapseAllAt(xs, j);
      CollapseSpec(xs[j]);
    }
  }

  /** `splitSentences(text)`: the sentences the loop gathers, or the trimmed
      text when it gathers none, collapsed, with the empty ones dropped. */
  function SentencesOf(text: string): seq<string>
  {
    var found := Gather(Lines(text));
    var withFallback := if found == [] then [Trim(text)] else found;
    NonEmpty(CollapseAll(withFallback))
  }

  /** Every sentence is non-empty, has no white space at either end, and has
      single plain spaces inside. */
  lemma SentencesAreClean(text: string)
    ensures forall k :: 0 <= k < |SentencesOf(text)| ==> SentencesOf(text)[k] != [] && IsClean(SentencesOf(text)[k])
  {
    var found := Gather(Lines(text));
    CollapsedAreClean(if found == [] then [Trim(text)] else found);
  }

  lemma GatherStep(lines: seq<string>, i: nat)
    requires i < |lines|
    ensures Gather(lines[..i + 1]) == Gather(lines[..i]) + LineSentences(lines[i])
  {
    assert lines[..i + 1][..i] == lines[..i];
  }

  /** The loop of `splitSentences` over the lines: each line loses its list
      marker and is cut at sentence boundaries; a line with no piece left
      pushes its cleaned form instead. */
  method GatherLines(lines: seq<string>) returns (found: seq<string>)
    ensures found == Gather(lines)
  {
    found := [];
    for i := 0 to |lines|
      invariant found == Gather(lines[..i])
    {
      GatherStep(lines, i);
      var cleanedLine := StripBullet(lines[i]);
      var parts := NonEmpty(TrimAll(SplitAtBoundaries(cleanedLine)));
      if |parts| == 0 {
        found := found + [cleanedLine];
      } else {
        found := found + parts;
      }
    }
    assert lines[..|lines|] == lines;
  }

  /** `splitSentences`. */
  method SplitSentences(text: string) returns (sentences: seq<string>)
    ensures sentences == SentencesOf(text)
  {
    var found := GatherLines(Lines(text));
    if |found| == 0 {
      found := found + [Trim(text)];
    }
    sentences := NonEmpty(CollapseAll(found));
  }

  predicate AnyContent(xs: seq<string>)
  {
    exists k :: 0 <= k < |xs| && HasContent(xs[k])
  }

  /** A line whose cleaned form is empty pushes just that empty string; any
      other line pushes only pieces with content, and at least one. */
  lemma LineSentencesContent(line: string)
    requires line != [] && !IsSpace(line[0])
    ensures StripBullet(line) == [] ==> LineSentences(line) == [[]]
    ensures StripBullet(line) != [] ==>
      LineSentences(line) != [] && forall k :: 0 <= k < |LineSentences(line)| ==> HasContent(LineSentences(line)[k])
  {
    var c := StripBullet(line);
    var ps := Pieces(c);
    var trimmed := TrimAll(Texts(ps));
    var parts := NonEmpty(trimmed);
    NonEmptyNil(trimmed);
    TrimAllAt(Texts(ps), 0);
    if c == [] {
      assert ps == [Piece([], [])];
      assert trimmed[0] == [];
    } else {
      assert !IsSpace(c[0]);
      PieceStartsAt(c, 0);
      VisibleHead(ps[0].text);
      TrimEmptyIff(ps[0].text);
      assert trimmed[0] != [];
      forall k | 0 <= k < |parts| ensures HasContent(parts[k]) {
        NonEmptyFrom(trimmed, k);
        var j :| 0 <= j < |trimmed| && trimmed[j] == parts[k];
        TrimAllAt(Texts(ps), j);
        assert !IsSpace(parts[k][0]);
        VisibleHead(parts[k]);
      }
    }
  }

  lemma AnyContentConcat(a: seq<string>, b: seq<string>)
    ensures AnyContent(a + b) <==> AnyContent(a) || AnyContent(b)
  {
    if AnyContent(a + b) {
      var k :| 0 <= k < |a + b| && HasContent((a + b)[k]);
      if k >= |a| { assert (a + b)[k] == b[k - |a|]; }
    }
    if AnyContent(b) {
      var k :| 0 <= k < |b| && HasContent(b[k]);
      assert (a + b)[|a| + k] == b[k];
    }
    if AnyContent(a) {
      var k :| 0 <= k < |a| && HasContent(a[k]);
      assert (a + b)[k] == a[k];
    }
  }

  /** The line has text after its list marker. */
  predicate HasText(line: string)
  {
    StripBullet(line) != []
  }

  /** Some line has text after its list marker. */
  predicate SomeLineHasText(lines: seq<string>)
  {
    SomeSatisfies(lines, HasText)
  }

  predicate SomeSatisfies(xs: seq<string>, P: string -> bool)
  {
    exists k :: 0 <= k < |xs| && P(xs[k])
  }

  lemma SomeSatisfiesSnoc(xs: seq<string>, P: string -> bool)
    requires xs != []
    ensures SomeSatisfies(xs, P) <==> SomeSatisfies(xs[..|xs| - 1], P) || P(xs[|xs| - 1])
  {
    var init := xs[..|xs| - 1];
    if SomeSatisfies(init, P) {
      var k :| 0 <= k < |init| && P(init[k]);
      assert xs[k] == init[k];
    }
    if SomeSatisfies(xs, P) {
      var k :| 0 <= k < |xs| && P(xs[k]);
      if k < |init| { assert init[k] == xs[k]; }
    }
  }

  /** The gathered pieces hold content exactly when some line has content past
      its list marker. */
  lemma {:induction false} GatherContent(lines: seq<string>)
    requires forall k :: 0 <= k < |lines| ==> lines[k] != [] && !IsSpace(lines[k][0])
    ensures lines != [] ==> Gather(lines) != []
    ensures AnyContent(Gather(lines)) <==> SomeLineHasText(lines)
    decreases |lines|
  {
    if lines != [] {
      var init := lines[..|lines| - 1];
      var last := lines[|lines| - 1];
      GatherContent(init);
      LineSentencesContent(last);
      AnyContentConcat(Gather(init), LineSentences(last));
      SomeSatisfiesSnoc(lines, HasText);
      var ls := LineSentences(last);
      if StripBullet(last) == [] {
        assert !HasContent(ls[0]);
        assert !AnyContent(ls);
      } else {
        assert HasContent(ls[0]);
      }
    }
  }

  /** Every line is non-empty and starts with a visible character. */
  lemma LinesAreTrimmed(text: string)
    ensures forall k :: 0 <= k < |Lines(text)| ==> Lines(text)[k] != [] && !IsSpace(Lines(text)[k][0])
  {
    var trimmed := TrimAll(SplitWhere(text, IsNewline));
    forall k | 0 <= k < |Lines(text)| ensures Lines(text)[k] != [] && !IsSpace(Lines(text)[k][0]) {
      NonEmptyFrom(trimmed, k);
      var j :| 0 <= j < |trimmed| && trimmed[j] == Lines(text)[k];
      TrimAllAt(SplitWhere(text, IsNewline), j);
    }
  }

  /** Text without lines is blank. */
  lemma NoLinesBlank(text: string)
    requires Lines(text) == []
    ensures !HasContent(text)
  {
    if HasContent(text) {
      SplitKeepsContent(text, IsNewline);
      var pieces := SplitWhere(text, IsNewline);
      var k :| 0 <= k < |pieces| && HasContent(pieces[k]);
      TrimEmptyIff(pieces[k]);
      NonEmptyNil(TrimAll(pieces));
      TrimAllAt(pieces, k);
    }
  }

  /** Filtering out the empty strings after collapsing leaves something exactly
      when some string had content. */
  lemma CollapsedContent(xs: seq<string>)
    ensures NonEmpty(CollapseAll(xs)) != [] <==> AnyContent(xs)
  {
    var c := CollapseAll(xs);
    NonEmptyNil(c);
    if AnyContent(xs) {
      var k :| 0 <= k < |xs| && HasContent(xs[k]);
      CollapseAllAt(xs, k);
      CollapseSpec(xs[k]);
    }
    if NonEmpty(c) != [] {
      var j :| 0 <= j < |c| && c[j] != [];
      CollapseAllAt(xs, j);
      CollapseSpec(xs[j]);
    }
  }

  /** `splitSentences` returns something exactly when some line of the text has
      content after its leading list marker; a text made only of markers, such
      as `"-"`, has none. */
  lemma {:induction false} SentencesNonEmptyIff(text: string)
    ensures SentencesOf(text) != [] <==> SomeLineHasText(Lines(text))
  {
    var lines := Lines(text);
    LinesAreTrimmed(text);
    GatherContent(lines);
    var found := Gather(lines);
    if lines == [] {
      NoLinesBlank(text);
      TrimKeepsVisible(text);
      CollapsedContent([Trim(text)]);
    } else {
      CollapsedContent(found);
    }
  }

  /** A line holding only a list marker yields no sentence: the loop pushes
      the empty cleaned line, so the fallback does not run, and the final
      filter removes it. */
  lemma BulletOnlyYieldsNothing()
    ensures Gather(Lines("-")) == [""]
    ensures SentencesOf("-") == []
  {
    SplitNoSeparator("-");
    assert Trim("-") == "-";
    TrimAllAt(["-"], 0);
    assert TrimAll(["-"]) == ["-"];
    assert Lines("-") == ["-"];
    assert StripBullet("-") == [];
    SentencesNonEmptyIff("-");
  }
}
