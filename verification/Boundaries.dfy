// crates/montre-query/src/executor.rs: benefits_from_parallel. Scanning document by document is there
// for speed, but it also decides whether a match may cross a document boundary.
module Boundaries {
  import opened Core
  import opened Runs
  import opened Sequence
  import opened Plan
  import opened Dispatch
  import opened Group
  import opened Outcomes

  // Scanned document by document, no match crosses.
  lemma PerDocumentInside(c: Corpus, steps: seq<SequenceStep>, x: Span)
    requires ValidCorpus(c) && PerDocument(c, steps)
    requires Meaning(SequenceScan(steps), c).Some? && x in Meaning(SequenceScan(steps), c).value
    ensures InsideOne(c.spans["document"], x)
  {
    MeaningOfSequence(steps, c);
    SpansAreMatches(c, steps, PiecesOf(steps, c), x);
  }

  // Whatever the corpus, a selected span lies inside one document.
  ghost predicate NeverCrosses(steps: seq<SequenceStep>) {
    forall c, x :: ValidCorpus(c) && "document" in c.spans && Selected(steps, c, x) ==>
      InsideOne(c.spans["document"], x)
  }

  ghost predicate Selected(steps: seq<SequenceStep>, c: Corpus, x: Span) {
    Meaning(SequenceScan(steps), c).Some? && x in Meaning(SequenceScan(steps), c).value
  }

  lemma TokenInside(c: Corpus, x: Span)
    requires ValidCorpus(c) && "document" in c.spans && x.start < c.tokenCount && x.end == x.start + 1
    ensures InsideOne(c.spans["document"], x)
  {
    TilesCover(c.spans["document"], c.tokenCount, x.start);
  }

  lemma OneDocument(c: Corpus, x: Span)
    requires ValidCorpus(c) && "document" in c.spans && |c.spans["document"]| <= 1
    requires x.start < x.end <= c.tokenCount
    ensures InsideOne(c.spans["document"], x)
  {
    TilesCover(c.spans["document"], c.tokenCount, x.start);
  }

  lemma SelectedMatches(steps: seq<SequenceStep>, c: Corpus, x: Span)
    requires ValidCorpus(c) && Selected(steps, c, x)
    ensures Matches(PiecesOf(steps, c), x.start, x.end) && x.start < x.end <= c.tokenCount
  {
    MeaningOfSequence(steps, c);
    SpansAreMatches(c, steps, PiecesOf(steps, c), x);
  }

  // A step that gains nothing takes one token.
  lemma ShortSequence(steps: seq<SequenceStep>, c: Corpus, x: Span)
    requires |steps| <= 1 && !BenefitsFromParallel(steps) && ValidCorpus(c) && Selected(steps, c, x)
    ensures x.end == x.start + 1
  {
    SelectedMatches(steps, c, x);
    var pieces := PiecesOf(steps, c);
    var cs :| IsCut(pieces, cs) && cs[0] == x.start && cs[|pieces|] == x.end;
    if |steps| == 1 {
      assert !StepBenefits(steps[0]) && PieceFits(pieces[0], cs[0], cs[1]);
    }
  }

  // With a step that gains from it, or one step only, no match crosses: whatever the nodes are.
  lemma {:induction false} BenefitsNeverCross(steps: seq<SequenceStep>)
    requires BenefitsFromParallel(steps) || |steps| <= 1
    ensures NeverCrosses(steps)
  {
    forall c, x | ValidCorpus(c) && "document" in c.spans && Selected(steps, c, x)
      ensures InsideOne(c.spans["document"], x)
    {
      SelectedMatches(steps, c, x);
      if PerDocument(c, steps) {
        PerDocumentInside(c, steps, x);
      } else if BenefitsFromParallel(steps) {
        OneDocument(c, x);
      } else {
        ShortSequence(steps, c, x);
        TokenInside(c, x);
      }
    }
  }

  predicate LooksUp(node: PlanNode) {
    node.ScanLiteral? || node.ScanRegex?
  }

  predicate AllLookUp(steps: seq<SequenceStep>) {
    forall i :: 0 <= i < |steps| ==> LooksUp(steps[i].node)
  }

  function LayersOf(steps: seq<SequenceStep>): set<string>
    requires AllLookUp(steps)
  {
    set i | 0 <= i < |steps| :: steps[i].node.layer
  }

  function ValuesOf(steps: seq<SequenceStep>): set<string>
    requires AllLookUp(steps)
  {
    {""} + set i | 0 <= i < |steps| && steps[i].node.ScanLiteral? :: steps[i].node.value
  }

  function OneTokenEach(n: nat): (r: seq<Span>)
    ensures |r| == n && forall d :: 0 <= d < n ==> r[d] == Span(d, d + 1)
  {
    seq(n, (d: nat) => Span(d, d + 1))
  }

  function AnyPattern(pattern: string): Option<string -> bool> {
    Some(value => true)
  }

  function NoValue(p: nat, attr: string): Option<string> {
    None
  }

  // As many documents of one token as there are steps, where every token has every value.
  function SameTokens(steps: seq<SequenceStep>): Corpus
    requires AllLookUp(steps)
  {
    var n := |steps|;
    var values := map v | v in ValuesOf(steps) :: RangeSet(0, n);
    Corpus(n, map l | l in LayersOf(steps) :: values, NoValue, map["document" := OneTokenEach(n)],
           [], [], [], map[], AnyPattern)
  }

  lemma SameTokensValid(steps: seq<SequenceStep>)
    requires AllLookUp(steps)
    ensures ValidCorpus(SameTokens(steps))
  {
  }

  // Every value of the layer is everywhere.
  ghost predicate Uniform(c: Corpus, layer: string, all: set<nat>) {
    layer in c.inverted && "" in c.inverted[layer] && forall v :: v in c.inverted[layer] ==> c.inverted[layer][v] == all
  }

  lemma LookUpAll(c: Corpus, node: PlanNode, all: set<nat>)
    requires LooksUp(node) && Uniform(c, node.layer, all) && c.compile == AnyPattern
    requires node.ScanLiteral? ==> node.value in c.inverted[node.layer]
    ensures PositionsOf(Meaning(node, c)) == all
  {
    if node.ScanLiteral? {
      assert Bitmap(c, node.layer, node.value) == all;
    } else {
      assert RegexSet(c, node.layer, c.compile(node.pattern).value) == all;
    }
    StartsOfSingletons(all);
  }

  lemma StepSelectsAll(steps: seq<SequenceStep>, i: nat)
    requires AllLookUp(steps) && i < |steps|
    ensures PositionsOf(Meaning(steps[i].node, SameTokens(steps))) == RangeSet(0, |steps|)
  {
    assert steps[i].node.layer in LayersOf(steps);
    LookUpAll(SameTokens(steps), steps[i].node, RangeSet(0, |steps|));
  }

  function TokenCuts(n: nat): (r: seq<nat>)
    ensures |r| == n + 1 && forall i :: 0 <= i <= n ==> r[i] == i
  {
    seq(n + 1, i => i)
  }

  lemma WholeMatches(pieces: seq<Piece>, n: nat)
    requires |pieces| == n >= 1 && forall i :: 0 <= i < n ==> pieces[i] == Piece(RangeSet(0, n), 1, Some(1))
    ensures Span(0, n) in SpansIn(pieces, 0, n)
  {
    assert Clipped(RangeSet(0, n), 0, n) == RangeSet(0, n);
    assert Restrict(pieces, 0, n) == pieces;
    var cs := TokenCuts(n);
    forall i | 0 <= i < n
      ensures PieceFits(pieces[i], cs[i], cs[i + 1])
    {
      assert Covered(RangeSet(0, n), i, i + 1);
    }
    assert Trace(pieces, n, cs);
    assert Reach(pieces, n, 0, n);
  }

  lemma WholeSelected(steps: seq<SequenceStep>)
    requires AllLookUp(steps) && |steps| >= 1 && !BenefitsFromParallel(steps)
    ensures Selected(steps, SameTokens(steps), Span(0, |steps|))
  {
    var c, pieces := SameTokens(steps), PiecesOf(steps, SameTokens(steps));
    MeaningOfSequence(steps, c);
    forall i | 0 <= i < |steps|
      ensures pieces[i] == Piece(RangeSet(0, |steps|), 1, Some(1))
    {
      StepSelectsAll(steps, i);
      assert !StepBenefits(steps[i]);
    }
    WholeMatches(pieces, |steps|);
  }

  // For steps that look values up: no match ever crosses a document boundary if and only if some
  // step makes the executor scan document by document, or there is one step at most.
  lemma {:induction false} NeverCrossesIff(steps: seq<SequenceStep>)
    requires AllLookUp(steps)
    ensures NeverCrosses(steps) <==> BenefitsFromParallel(steps) || |steps| <= 1
  {
    if BenefitsFromParallel(steps) || |steps| <= 1 {
      BenefitsNeverCross(steps);
    } else {
      Crosses(steps);
    }
  }

  lemma Crosses(steps: seq<SequenceStep>)
    requires AllLookUp(steps) && !BenefitsFromParallel(steps) && |steps| >= 2
    ensures ValidCorpus(SameTokens(steps)) && Selected(steps, SameTokens(steps), Span(0, |steps|))
    ensures !InsideOne(SameTokens(steps).spans["document"], Span(0, |steps|))
  {
    SameTokensValid(steps);
    WholeSelected(steps);
  }

  function Word(max: Option<nat>): SequenceStep {
    SequenceStep(ScanLiteral("word", "w"), 1, max, None)
  }

  // The query w w crosses the boundary between two documents of one w each; w w+, which permits
  // more, never crosses any.
  lemma BoundaryCrossed()
    ensures var c := SameTokens([Word(Some(1)), Word(Some(1))]);
      Selected([Word(Some(1)), Word(Some(1))], c, Span(0, 2)) && !InsideOne(c.spans["document"], Span(0, 2))
    ensures NeverCrosses([Word(Some(1)), Word(None)])
  {
    var once, more := [Word(Some(1)), Word(Some(1))], [Word(Some(1)), Word(None)];
    Crosses(once);
    assert StepBenefits(more[1]);
    BenefitsNeverCross(more);
  }
}
