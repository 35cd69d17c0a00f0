/**
  `classifySentences`: the first sentence is the objective; every later
  sentence goes, in its original order, into exactly one of five buckets. The
  keyword tests are tried in a fixed order (constraint, output, step, context)
  and the first one that matches decides.
 */
module Classifier {
  import opened Text
  import opened Patterns

  datatype Bucket = Context | Constraints | Outputs | Steps | Other

  /** The result record of `classifySentences`. */
  datatype Categories = Categories(
    objective: string,
    context: seq<string>,
    constraints: seq<string>,
    outputs: seq<string>,
    steps: seq<string>,
    other: seq<string>)

  /** Alternatives matched anywhere, ignoring case. */
  function AnyWord(words: seq<string>): Pattern
  {
    AnyOf(seq(|words|, k requires 0 <= k < |words| => Plain(words[k])))
  }

  const ConstraintPattern: Pattern := AnyWord(["must", "should", "need to", "require", "limit", "avoid",
    "never", "do not", "don't", "cannot", "deadline", "within"])
  const OutputPattern: Pattern := AnyWord(["provide", "return", "output", "deliver", "format", "list",
    "summarize", "write", "generate", "give me", "produce", "draft"])
  const StepPattern: Pattern := AnyWord(["first", "then", "next", "after", "before", "step", "process"])
  const ContextPattern: Pattern := AnyWord(["because", "so that", "for my", "for our", "i am", "i'm", "we are",
    "audience", "background", "current", "existing", "using", "working on", "project", "goal", "objective",
    "purpose"])

  /** The bucket one sentence after the first lands in. */
  function BucketOf(sentence: string): Bucket
  {
    if Test(ConstraintPattern, sentence) then Constraints
    else if Test(OutputPattern, sentence) then Outputs
    else if Test(StepPattern, sentence) then Steps
    else if Test(ContextPattern, sentence) then Context
    else Other
  }

  /** The sentences of `xs` that `sort` sends to bucket `b`, in order. */
  function Select(xs: seq<string>, sort: string -> Bucket, b: Bucket): seq<string>
  {
    if xs == [] then []
    else Select(xs[..|xs| - 1], sort, b) + (if sort(xs[|xs| - 1]) == b then [xs[|xs| - 1]] else [])
  }

  /** `sentences.slice(1)`. */
  function Rest(sentences: seq<string>): seq<string>
  {
    if sentences == [] then [] else sentences[1..]
  }

  /** The record after the loop has handled the sentences `done`. */
  function Sorted(objective: string, done: seq<string>): Categories
  {
    Categories(objective, Select(done, BucketOf, Context), Select(done, BucketOf, Constraints),
      Select(done, BucketOf, Outputs), Select(done, BucketOf, Steps), Select(done, BucketOf, Other))
  }

  /** What `classifySentences` returns. */
  function Classify(sentences: seq<string>): Categories
  {
    Sorted(if sentences == [] then [] else sentences[0], Rest(sentences))
  }

  lemma SelectStep(xs: seq<string>, i: nat, sort: string -> Bucket, b: Bucket)
    requires i < |xs|
    ensures Select(xs[..i + 1], sort, b) == Select(xs[..i], sort, b) + (if sort(xs[i]) == b then [xs[i]] else [])
  {
    assert xs[..i + 1][..i] == xs[..i];
  }

  /** `classifySentences`: one pass over the sentences after the first, pushing
      each into the first bucket whose keywords it contains. */
  method ClassifySentences(sentences: seq<string>) returns (categories: Categories)
    ensures categories == Classify(sentences)
  {
    categories := Categories([], [], [], [], [], []);
    if |sentences| > 0 {
      categories := categories.(objective := sentences[0]);
    }
    var rest := Rest(sentences);
    for i := 0 to |rest|
      invariant categories.context == Select(rest[..i], BucketOf, Context)
      invariant categories.constraints == Select(rest[..i], BucketOf, Constraints)
      invariant categories.outputs == Select(rest[..i], BucketOf, Outputs)
      invariant categories.steps == Select(rest[..i], BucketOf, Steps)
      invariant categories.other == Select(rest[..i], BucketOf, Other)
      invariant categories.objective == Classify(sentences).objective
    {
      var sentence := rest[i];
      SelectStep(rest, i, BucketOf, Context);
      SelectStep(rest, i, BucketOf, Constraints);
      SelectStep(rest, i, BucketOf, Outputs);
      SelectStep(rest, i, BucketOf, Steps);
      SelectStep(rest, i, BucketOf, Other);
      if Test(ConstraintPattern, sentence) {
        categories := categories.(constraints := categories.constraints + [sentence]);
        continue;
      }
      if Test(OutputPattern, sentence) {
        categories := categories.(outputs := categories.outputs + [sentence]);
        continue;
      }
      if Test(StepPattern, sentence) {
        categories := categories.(steps := categories.steps + [sentence]);
        continue;
      }
      if Test(ContextPattern, sentence) {
        categories := categories.(context := categories.context + [sentence]);
        continue;
      }
      categories := categories.(other := categories.other + [sentence]);
    }
    assert rest[..|rest|] == rest;
  }

  /** All five buckets, concatenated. */
  function AllBuckets(c: Categories): seq<string>
  {
    c.context + c.constraints + c.outputs + c.steps + c.other
  }

  /** The five selections, concatenated. */
  function SelectAll(xs: seq<string>, sort: string -> Bucket): seq<string>
  {
    Select(xs, sort, Context) + Select(xs, sort, Constraints) + Select(xs, sort, Outputs)
    + Select(xs, sort, Steps) + Select(xs, sort, Other)
  }

  lemma SelectCountStep(xs: seq<string>, sort: string -> Bucket, b: Bucket, y: string)
    requires xs != []
    ensures multiset(Select(xs, sort, b))[y] == multiset(Select(xs[..|xs| - 1], sort, b))[y]
      + (if sort(xs[|xs| - 1]) == b && xs[|xs| - 1] == y then 1 else 0)
  {
  }

  /** Every sentence is sent to exactly one bucket. */
  lemma OneBucket(b: Bucket, x: string, y: string)
    ensures (if b == Context && x == y then 1 else 0) + (if b == Constraints && x == y then 1 else 0)
      + (if b == Outputs && x == y then 1 else 0) + (if b == Steps && x == y then 1 else 0)
      + (if b == Other && x == y then 1 else 0) == (if x == y then 1 else 0)
  {
  }

  lemma CountSnoc(xs: seq<string>, y: string)
    requires xs != []
    ensures multiset(xs)[y] == multiset(xs[..|xs| - 1])[y] + (if xs[|xs| - 1] == y then 1 else 0)
  {
    assert xs == xs[..|xs| - 1] + [xs[|xs| - 1]];
  }

  /** How often a sentence occurs in the five selections together. */
  lemma {:induction false} SelectCount(xs: seq<string>, sort: string -> Bucket, y: string)
    ensures multiset(SelectAll(xs, sort))[y] == multiset(xs)[y]
  {
    SplitSelectAll(xs, sort, y);
    if xs != [] {
      var init := xs[..|xs| - 1];
      var x := xs[|xs| - 1];
      SelectCount(init, sort, y);
      SplitSelectAll(init, sort, y);
      SelectCountStep(xs, sort, Context, y);
      SelectCountStep(xs, sort, Constraints, y);
      SelectCountStep(xs, sort, Outputs, y);
      SelectCountStep(xs, sort, Steps, y);
      SelectCountStep(xs, sort, Other, y);
      OneBucket(sort(x), x, y);
      CountSnoc(xs, y);
    }
  }

  /** The five selections split the sentences: every one of them is in exactly
      one bucket, as often as it occurs, and nothing else is. */
  lemma SelectPartition(xs: seq<string>, sort: string -> Bucket)
    ensures multiset(SelectAll(xs, sort)) == multiset(xs)
  {
    forall y ensures multiset(SelectAll(xs, sort))[y] == multiset(xs)[y] {
      SelectCount(xs, sort, y);
    }
  }

  lemma SplitSelectAll(xs: seq<string>, sort: string -> Bucket, y: string)
    ensures multiset(SelectAll(xs, sort))[y] == multiset(Select(xs, sort, Context))[y]
      + multiset(Select(xs, sort, Constraints))[y] + multiset(Select(xs, sort, Outputs))[y]
      + multiset(Select(xs, sort, Steps))[y] + multiset(Select(xs, sort, Other))[y]
  {
  }

  /** The buckets of `classifySentences` split the sentences after the first. */
  lemma ClassifyPartition(sentences: seq<string>)
    ensures multiset(AllBuckets(Classify(sentences))) == multiset(Rest(sentences))
    ensures |AllBuckets(Classify(sentences))| == |Rest(sentences)|
  {
    SelectPartition(Rest(sentences), BucketOf);
    assert AllBuckets(Classify(sentences)) == SelectAll(Rest(sentences), BucketOf);
    assert |multiset(AllBuckets(Classify(sentences)))| == |AllBuckets(Classify(sentences))|;
  }

  /** A sentence is selected for bucket `b` exactly when it occurs among the
      sentences and is sent to `b`. */
  lemma {:induction false} SelectMembership(xs: seq<string>, sort: string -> Bucket, b: Bucket, x: string)
    ensures x in Select(xs, sort, b) <==> x in xs && sort(x) == b
  {
    if xs != [] {
      var init := xs[..|xs| - 1];
      SelectMembership(init, sort, b, x);
      assert xs == init + [xs[|xs| - 1]];
    }
  }

  /** `a` is `b` with some elements removed, the rest kept in order. */
  ghost predicate IsSubsequence(a: seq<string>, b: seq<string>)
  {
    exists idx: seq<nat> :: Picks(a, b, idx)
  }

  /** `idx` lists, in increasing order, positions of `b` that hold `a`. */
  predicate Picks(a: seq<string>, b: seq<string>, idx: seq<nat>)
  {
    |idx| == |a|
    && (forall k :: 0 <= k < |idx| ==> idx[k] < |b| && b[idx[k]] == a[k])
    && (forall k, l :: 0 <= k < l < |idx| ==> idx[k] < idx[l])
  }

  /** A selection keeps its sentences in their original order. */
  lemma {:induction false} SelectKeepsOrder(xs: seq<string>, sort: string -> Bucket, b: Bucket)
    ensures IsSubsequence(Select(xs, sort, b), xs)
  {
    if xs == [] {
      assert Picks(Select(xs, sort, b), xs, []);
    } else {
      var init := xs[..|xs| - 1];
      var x := xs[|xs| - 1];
      var s0 := Select(init, sort, b);
      SelectKeepsOrder(init, sort, b);
      var idx: seq<nat> :| Picks(s0, init, idx);
      var s := Select(xs, sort, b);
      if sort(x) == b {
        var idx' := idx + [|xs| - 1];
        assert s == s0 + [x];
        forall k | 0 <= k < |idx'| ensures idx'[k] < |xs| && xs[idx'[k]] == s[k] {
          if k < |idx| { assert xs[idx[k]] == init[idx[k]]; }
        }
        assert Picks(s, xs, idx');
      } else {
        assert s == s0;
        forall k | 0 <= k < |idx| ensures idx[k] < |xs| && xs[idx[k]] == s[k] {
          assert xs[idx[k]] == init[idx[k]];
        }
        assert Picks(s, xs, idx);
      }
    }
  }

  /** Every bucket of `classifySentences` keeps its sentences in their original
      order. */
  lemma ClassifyKeepsOrder(sentences: seq<string>)
    ensures var c := Classify(sentences);
      IsSubsequence(c.context, Rest(sentences)) && IsSubsequence(c.constraints, Rest(sentences))
      && IsSubsequence(c.outputs, Rest(sentences)) && IsSubsequence(c.steps, Rest(sentences))
      && IsSubsequence(c.other, Rest(sentences))
  {
    var rest := Rest(sentences);
    SelectKeepsOrder(rest, BucketOf, Context);
    SelectKeepsOrder(rest, BucketOf, Constraints);
    SelectKeepsOrder(rest, BucketOf, Outputs);
    SelectKeepsOrder(rest, BucketOf, Steps);
    SelectKeepsOrder(rest, BucketOf, Other);
  }

  /** A sentence lands in a bucket exactly when it passes that bucket's test
      and fails every test tried before it. */
  lemma ClassifyMembership(sentences: seq<string>, x: string)
    requires x in Rest(sentences)
    ensures var c := Classify(sentences);
      (x in c.constraints <==> Test(ConstraintPattern, x))
      && (x in c.outputs <==> !Test(ConstraintPattern, x) && Test(OutputPattern, x))
      && (x in c.steps <==> !Test(ConstraintPattern, x) && !Test(OutputPattern, x) && Test(StepPattern, x))
      && (x in c.context <==>
            !Test(ConstraintPattern, x) && !Test(OutputPattern, x) && !Test(StepPattern, x) && Test(ContextPattern, x))
      && (x in c.other <==>
            !Test(ConstraintPattern, x) && !Test(OutputPattern, x) && !Test(StepPattern, x) && !Test(ContextPattern, x))
  {
    var rest := Rest(sentences);
    SelectMembership(rest, BucketOf, Context, x);
    SelectMembership(rest, BucketOf, Constraints, x);
    SelectMembership(rest, BucketOf, Outputs, x);
    SelectMembership(rest, BucketOf, Steps, x);
    SelectMembership(rest, BucketOf, Other, x);
  }

  /** The objective is the first sentence, or empty when there is none. */
  lemma ClassifyObjective(sentences: seq<string>)
    ensures sentences != [] ==> Classify(sentences).objective == sentences[0]
    ensures sentences == [] ==> Classify(sentences) == Categories([], [], [], [], [], [])
  {
  }
}
