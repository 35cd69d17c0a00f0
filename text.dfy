/**
  Strings as the pipeline's JavaScript sees them: the white space of `\s` and
  `String.prototype.trim`, `trim`, `split`, `join`, `includes`, and the
  `replace(/\s+/g, ' ')` idiom the pipeline uses to collapse white space.
 */
module Text {

  /** The characters that `\s` matches and `trim` removes: ECMAScript's
      WhiteSpace and LineTerminator productions. */
  predicate IsSpace(c: char)
  {
    ('\t' <= c <= '\r') || c == ' ' || c == '\U{A0}' || c == '\U{1680}'
    || ('\U{2000}' <= c <= '\U{200A}') || c == '\U{2028}' || c == '\U{2029}'
    || c == '\U{202F}' || c == '\U{205F}' || c == '\U{3000}' || c == '\U{FEFF}'
  }

  predicate IsNewline(c: char)
  {
    c == '\n'
  }

  /** ASCII lower-casing: the part of `toLowerCase` and of the `i` flag that
      the pipeline's keyword tables depend on. */
  function Lower(c: char): char
  {
    if 'A' <= c <= 'Z' then (c as int + 32) as char else c
  }

  function ToLower(s: string): string
  {
    seq(|s|, k requires 0 <= k < |s| => Lower(s[k]))
  }

  /** The characters of `s` that are not white space, in order. */
  function Visible(s: string): string
  {
    if s == [] then []
    else (if IsSpace(s[0]) then [] else [s[0]]) + Visible(s[1..])
  }

  predicate HasContent(s: string)
  {
    Visible(s) != []
  }

  predicate AllSpace(s: string)
  {
    forall k :: 0 <= k < |s| ==> IsSpace(s[k])
  }

  lemma {:induction false} VisibleConcat(a: string, b: string)
    ensures Visible(a + b) == Visible(a) + Visible(b)
    decreases |a|
  {
    if a != [] {
      assert (a + b)[1..] == a[1..] + b;
      VisibleConcat(a[1..], b);
    } else {
      assert a + b == b;
    }
  }

  lemma {:induction false} VisibleEmptyIffAllSpace(s: string)
    ensures Visible(s) == [] <==> AllSpace(s)
    decreases |s|
  {
    if s != [] {
      VisibleEmptyIffAllSpace(s[1..]);
      assert AllSpace(s) <==> IsSpace(s[0]) && AllSpace(s[1..]) by {
        if IsSpace(s[0]) && AllSpace(s[1..]) {
          forall k | 0 <= k < |s| ensures IsSpace(s[k]) {
            if k > 0 { assert s[k] == s[1..][k - 1]; }
          }
        }
      }
    }
  }

  /** A string that starts with a visible character has content. */
  lemma VisibleHead(s: string)
    requires s != [] && !IsSpace(s[0])
    ensures HasContent(s)
  {
  }

  /** A full stop added at the end is visible. */
  lemma VisibleWithStop(s: string)
    ensures Visible(s + ".") == Visible(s) + "."
  {
    VisibleConcat(s, ".");
    assert "."[1..] == [];
  }

  /** A string is its front followed by its last character. */
  lemma ButLast(s: string)
    requires s != []
    ensures s[..|s| - 1] + [s[|s| - 1]] == s
  {
  }

  lemma AppendAssoc(a: string, b: string, c: string)
    ensures (a + b) + c == a + (b + c)
  {
  }

  /** The end of the white-space run that starts at `i`. */
  function SpaceRunEnd(s: string, i: nat): (j: nat)
    requires i <= |s|
    ensures i <= j <= |s|
    ensures forall k :: i <= k < j ==> IsSpace(s[k])
    ensures j == |s| || !IsSpace(s[j])
    decreases |s| - i
  {
    if i < |s| && IsSpace(s[i]) then SpaceRunEnd(s, i + 1) else i
  }

  /** The start of the white-space run that ends at `j`, not going below `lo`. */
  function SpaceRunStart(s: string, lo: nat, j: nat): (i: nat)
    requires lo <= j <= |s|
    ensures lo <= i <= j
    ensures forall k :: i <= k < j ==> IsSpace(s[k])
    ensures i == lo || !IsSpace(s[i - 1])
    decreases j - lo
  {
    if j > lo && IsSpace(s[j - 1]) then SpaceRunStart(s, lo, j - 1) else j
  }

  /** The white-space run from `i` ends at `j` when `s[i..j]` is white space
      and `s[j]` is not. */
  lemma SpaceRunEndAt(s: string, i: nat, j: nat)
    requires i <= j <= |s|
    requires forall k :: i <= k < j ==> IsSpace(s[k])
    requires j == |s| || !IsSpace(s[j])
    ensures SpaceRunEnd(s, i) == j
  {
  }

  /** `s.trim()`: the slice of `s` between its leading and its trailing white
      space. */
  function Trim(s: string): (r: string)
    ensures |r| <= |s|
    ensures r == [] || (!IsSpace(r[0]) && !IsSpace(r[|r| - 1]))
  {
    var a := SpaceRunEnd(s, 0);
    s[a..SpaceRunStart(s, a, |s|)]
  }

  /** Dropping white space from the front keeps the visible text. */
  lemma DropSpacesKeepsVisible(s: string, e: nat)
    requires e <= |s| && forall k :: 0 <= k < e ==> IsSpace(s[k])
    ensures Visible(s[e..]) == Visible(s)
  {
    assert s == s[..e] + s[e..];
    VisibleConcat(s[..e], s[e..]);
    VisibleEmptyIffAllSpace(s[..e]);
  }

  /** White space around a string adds nothing visible. */
  lemma SurroundingSpacesInvisible(p: string, m: string, q: string)
    requires AllSpace(p) && AllSpace(q)
    ensures Visible(p + m + q) == Visible(m)
  {
    VisibleConcat(p + m, q);
    VisibleConcat(p, m);
    VisibleEmptyIffAllSpace(p);
    VisibleEmptyIffAllSpace(q);
  }

  /** Trimming never removes a visible character. */
  lemma TrimKeepsVisible(s: string)
    ensures Visible(Trim(s)) == Visible(s)
  {
    var a := SpaceRunEnd(s, 0);
    var b := SpaceRunStart(s, a, |s|);
    var p, m, q := s[..a], s[a..b], s[b..];
    assert AllSpace(p) by {
      forall k | 0 <= k < |p| ensures IsSpace(p[k]) { assert p[k] == s[k]; }
    }
    assert AllSpace(q) by {
      forall k | 0 <= k < |q| ensures IsSpace(q[k]) { assert q[k] == s[b + k]; }
    }
    assert s == p + m + q;
    SurroundingSpacesInvisible(p, m, q);
  }

  /** A string that neither starts nor ends with white space is its own trim. */
  lemma TrimClean(s: string)
    requires s != [] && !IsSpace(s[0]) && !IsSpace(s[|s| - 1])
    ensures Trim(s) == s
  {
  }

  /** Trimming empties a string exactly when it has no content. */
  lemma TrimEmptyIff(s: string)
    ensures Trim(s) == [] <==> !HasContent(s)
  {
    TrimKeepsVisible(s);
    if Trim(s) != [] { VisibleHead(Trim(s)); }
  }

  /** No two white-space characters are adjacent. */
  predicate NoDoubleSpace(s: string)
  {
    forall i, j :: 0 <= i < |s| && j == i + 1 < |s| ==> !(IsSpace(s[i]) && IsSpace(s[j]))
  }

  /** Every white-space character is a plain space. */
  predicate OnlyPlainSpaces(s: string)
  {
    forall k :: 0 <= k < |s| && IsSpace(s[k]) ==> s[k] == ' '
  }

  /** The shape of a cleaned sentence: no white space at either end, single
      plain spaces inside. */
  predicate IsClean(s: string)
  {
    (s == [] || (!IsSpace(s[0]) && !IsSpace(s[|s| - 1])))
    && NoDoubleSpace(s) && OnlyPlainSpaces(s)
  }

  /** `s.replace(/\s+/g, ' ')`: every maximal run of white space becomes one
      plain space. */
  function Squeeze(s: string): (r: string)
    ensures (r == []) == (s == [])
    ensures r != [] ==> (IsSpace(r[0]) <==> IsSpace(s[0]))
    decreases |s|
  {
    if s == [] then []
    else if IsSpace(s[0]) then [' '] + Squeeze(s[SpaceRunEnd(s, 0)..])
    else [s[0]] + Squeeze(s[1..])
  }

  lemma ConsShape(c: char, q: string)
    requires NoDoubleSpace(q) && OnlyPlainSpaces(q)
    requires IsSpace(c) ==> c == ' ' && (q == [] || !IsSpace(q[0]))
    ensures NoDoubleSpace([c] + q) && OnlyPlainSpaces([c] + q)
  {
    var r := [c] + q;
    forall k | 1 <= k < |r| ensures r[k] == q[k - 1] { }
  }

  /** Squeezing leaves single plain spaces between the visible characters. */
  lemma {:induction false} SqueezeShape(s: string)
    ensures NoDoubleSpace(Squeeze(s)) && OnlyPlainSpaces(Squeeze(s))
    decreases |s|
  {
    if s != [] {
      if IsSpace(s[0]) {
        var t := s[SpaceRunEnd(s, 0)..];
        SqueezeShape(t);
        ConsShape(' ', Squeeze(t));
      } else {
        SqueezeShape(s[1..]);
        ConsShape(s[0], Squeeze(s[1..]));
      }
    }
  }

  /** Squeezing keeps the visible characters unchanged and in order. */
  lemma {:induction false} SqueezeKeepsVisible(s: string)
    ensures Visible(Squeeze(s)) == Visible(s)
    decreases |s|
  {
    if s != [] {
      if IsSpace(s[0]) {
        var t := s[SpaceRunEnd(s, 0)..];
        SqueezeKeepsVisible(t);
        DropSpacesKeepsVisible(s, SpaceRunEnd(s, 0));
        assert ([' '] + Squeeze(t))[1..] == Squeeze(t);
      } else {
        SqueezeKeepsVisible(s[1..]);
        assert ([s[0]] + Squeeze(s[1..]))[1..] == Squeeze(s[1..]);
      }
    }
  }

  /** A slice keeps the inner shape of its string. */
  lemma SliceShape(q: string, i: nat, j: nat)
    requires i <= j <= |q|
    requires NoDoubleSpace(q) && OnlyPlainSpaces(q)
    ensures NoDoubleSpace(q[i..j]) && OnlyPlainSpaces(q[i..j])
  {
    var r := q[i..j];
    forall k | 0 <= k < |r| ensures r[k] == q[i + k] { }
  }

  /** `s.replace(/\s+/g, ' ').trim()`: the normal form of a sentence. */
  function Collapse(s: string): string
  {
    Trim(Squeeze(s))
  }

  /** Collapsing gives a clean string with the same visible characters, empty
      exactly when the input has no content. */
  lemma CollapseSpec(s: string)
    ensures IsClean(Collapse(s))
    ensures Visible(Collapse(s)) == Visible(s)
    ensures Collapse(s) != [] <==> HasContent(s)
  {
    var q := Squeeze(s);
    SqueezeShape(s);
    SqueezeKeepsVisible(s);
    var a := SpaceRunEnd(q, 0);
    var b := SpaceRunStart(q, a, |q|);
    assert Collapse(s) == q[a..b];
    SliceShape(q, a, b);
    assert IsClean(Collapse(s));
    TrimKeepsVisible(q);
    assert Visible(Collapse(s)) == Visible(s);
    TrimEmptyIff(q);
    assert HasContent(q) == HasContent(s);
  }

  /** `s.split(c)` for a separator class: the pieces between separators,
      empty pieces included. */
  function SplitWhere(s: string, sep: char -> bool): (parts: seq<string>)
    ensures |parts| >= 1
    decreases |s|
  {
    if s == [] then [[]]
    else
      var rest := SplitWhere(s[1..], sep);
      if sep(s[0]) then [[]] + rest
      else [[s[0]] + rest[0]] + rest[1..]
  }

  /** `parts.join(sep)`. */
  function Join(parts: seq<string>, sep: string): string
  {
    if |parts| == 0 then []
    else if |parts| == 1 then parts[0]
    else parts[0] + sep + Join(parts[1..], sep)
  }

  /** A joined string starts with its first part. */
  lemma JoinStartsWithFirst(parts: seq<string>, sep: string)
    requires |parts| >= 1
    ensures |parts[0]| <= |Join(parts, sep)| && Join(parts, sep)[..|parts[0]|] == parts[0]
  {
  }

  /** Splitting at newlines and joining with newlines gives back the text. */
  lemma {:induction false} JoinSplitLines(s: string)
    ensures Join(SplitWhere(s, IsNewline), "\n") == s
    decreases |s|
  {
    if s != [] {
      var rest := SplitWhere(s[1..], IsNewline);
      JoinSplitLines(s[1..]);
      if IsNewline(s[0]) {
        assert SplitWhere(s, IsNewline) == [[]] + rest;
        assert s == [] + "\n" + s[1..];
      } else {
        var parts := SplitWhere(s, IsNewline);
        assert parts == [[s[0]] + rest[0]] + rest[1..];
        if |rest| == 1 {
          assert s == [s[0]] + s[1..];
        } else {
          assert rest == [rest[0]] + rest[1..];
          assert Join(rest, "\n") == rest[0] + "\n" + Join(rest[1..], "\n");
          assert parts[1..] == rest[1..];
          assert s == [s[0]] + s[1..];
        }
      }
    }
  }

  /** Splitting `a + "\n" + b` where `a` holds no newline peels off `a`. */
  lemma {:induction false} SplitAfterFirstLine(a: string, b: string)
    requires forall j :: 0 <= j < |a| ==> !IsNewline(a[j])
    ensures SplitWhere(a + "\n" + b, IsNewline) == [a] + SplitWhere(b, IsNewline)
    decreases |a|
  {
    if a == [] {
      assert a + "\n" + b == "\n" + b;
      assert ("\n" + b)[1..] == b;
    } else {
      assert (a + "\n" + b)[1..] == a[1..] + "\n" + b;
      SplitAfterFirstLine(a[1..], b);
      assert [a[0]] + a[1..] == a;
    }
  }

  /** Lines without newlines, joined with newlines, split back into themselves. */
  lemma {:induction false} SplitJoinLines(lines: seq<string>)
    requires |lines| >= 1
    requires forall k :: 0 <= k < |lines| ==> forall j :: 0 <= j < |lines[k]| ==> !IsNewline(lines[k][j])
    ensures SplitWhere(Join(lines, "\n"), IsNewline) == lines
    decreases |lines|
  {
    if |lines| == 1 {
      SplitNoSeparator(lines[0]);
    } else {
      SplitJoinLines(lines[1..]);
      SplitAfterFirstLine(lines[0], Join(lines[1..], "\n"));
    }
  }

  /** A string without a newline splits into itself. */
  lemma {:induction false} SplitNoSeparator(s: string)
    requires forall j :: 0 <= j < |s| ==> !IsNewline(s[j])
    ensures SplitWhere(s, IsNewline) == [s]
    decreases |s|
  {
    if s != [] {
      SplitNoSeparator(s[1..]);
      assert [s[0]] + s[1..] == s;
    }
  }

  /** Splitting at white-space separators loses no visible character: text
      with content has a piece with content. */
  lemma {:induction false} SplitKeepsContent(s: string, sep: char -> bool)
    requires forall c :: sep(c) ==> IsSpace(c)
    requires HasContent(s)
    ensures exists k :: 0 <= k < |SplitWhere(s, sep)| && HasContent(SplitWhere(s, sep)[k])
    decreases |s|
  {
    var parts := SplitWhere(s, sep);
    var rest := SplitWhere(s[1..], sep);
    if !IsSpace(s[0]) {
      assert parts[0] == [s[0]] + rest[0];
      VisibleHead(parts[0]);
    } else {
      assert Visible(s) == Visible(s[1..]);
      SplitKeepsContent(s[1..], sep);
      var k :| 0 <= k < |rest| && HasContent(rest[k]);
      if sep(s[0]) {
        assert parts[k + 1] == rest[k];
      } else if k == 0 {
        assert parts[0] == [s[0]] + rest[0];
        VisibleConcat([s[0]], rest[0]);
      } else {
        assert parts[k] == rest[k];
      }
    }
  }

  /** `xs.filter(Boolean)` on strings: the non-empty ones, in order. */
  function NonEmpty(xs: seq<string>): (r: seq<string>)
    ensures |r| <= |xs|
    ensures forall k :: 0 <= k < |r| ==> r[k] != []
  {
    if xs == [] then []
    else (if xs[0] == [] then [] else [xs[0]]) + NonEmpty(xs[1..])
  }

  /** The filter leaves nothing exactly when every string is empty. */
  lemma {:induction false} NonEmptyNil(xs: seq<string>)
    ensures NonEmpty(xs) == [] <==> forall j :: 0 <= j < |xs| ==> xs[j] == []
  {
    if xs != [] {
      NonEmptyNil(xs[1..]);
      assert forall j :: 1 <= j < |xs| ==> xs[j] == xs[1..][j - 1];
    }
  }

  /** Every string the filter keeps comes from the input. */
  lemma {:induction false} NonEmptyFrom(xs: seq<string>, k: nat)
    requires k < |NonEmpty(xs)|
    ensures exists j :: 0 <= j < |xs| && xs[j] == NonEmpty(xs)[k]
  {
    if xs[0] == [] {
      NonEmptyFrom(xs[1..], k);
      var j :| 0 <= j < |xs[1..]| && xs[1..][j] == NonEmpty(xs[1..])[k];
      assert xs[j + 1] == NonEmpty(xs)[k];
    } else if k > 0 {
      NonEmptyFrom(xs[1..], k - 1);
      var j :| 0 <= j < |xs[1..]| && xs[1..][j] == NonEmpty(xs[1..])[k - 1];
      assert xs[j + 1] == NonEmpty(xs)[k];
    }
  }

  /** `xs.map((x) => x.trim())`. */
  function TrimAll(xs: seq<string>): (r: seq<string>)
    ensures |r| == |xs|
  {
    if xs == [] then [] else [Trim(xs[0])] + TrimAll(xs[1..])
  }

  lemma {:induction false} TrimAllAt(xs: seq<string>, k: nat)
    requires k < |xs|
    ensures TrimAll(xs)[k] == Trim(xs[k])
  {
    if k > 0 { TrimAllAt(xs[1..], k - 1); }
  }

  /** `xs.map((x) => x.replace(/\s+/g, ' ').trim())`. */
  function CollapseAll(xs: seq<string>): (r: seq<string>)
    ensures |r| == |xs|
  {
    if xs == [] then [] else [Collapse(xs[0])] + CollapseAll(xs[1..])
  }

  lemma {:induction false} CollapseAllAt(xs: seq<string>, k: nat)
    requires k < |xs|
    ensures CollapseAll(xs)[k] == Collapse(xs[k])
  {
    if k > 0 { CollapseAllAt(xs[1..], k - 1); }
  }

  predicate OccursAt(s: string, t: string, i: nat)
  {
    i + |t| <= |s| && s[i..i + |t|] == t
  }

  /** `s.includes(t)`. */
  predicate Contains(s: string, t: string)
  {
    exists i :: 0 <= i <= |s| && OccursAt(s, t, i)
  }

  predicate StartsWith(s: string, prefix: string)
  {
    |prefix| <= |s| && s[..|prefix|] == prefix
  }

  predicate NoDup(xs: seq<string>)
  {
    forall i, j :: 0 <= i < j < |xs| ==> xs[i] != xs[j]
  }

  /** The list as a set: what a JavaScript `Set` built from it would hold. */
  function Elements(xs: seq<string>): set<string>
  {
    set x | x in xs
  }
}
