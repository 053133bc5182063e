// crates/montre-query/src/executor.rs: a parenthesised group used as a step is read as a set of
// one-token positions, the starts of its hits. What it selects, and exactly when that is what the
// group selects on its own.
module Group {
  import opened Core
  import opened Runs
  import opened Sequence
  import opened Determined
  import opened Plan
  import opened Outcomes

  // ---------------------------------------------------------------------------------
  // As a condition on the quantifiers alone.

  function TotalMax(qs: seq<Quant>, n: nat): nat
    requires n <= |qs|
  {
    if n == 0 then 0 else TotalMax(qs, n - 1) + MaxLen(qs[n - 1].max)
  }

  ghost predicate GroupedMatch(pieces: seq<Piece>, s: nat, e: nat) {
    e == s + 1 && exists end :: SeededMatch(pieces, s, end)
  }

  // Whatever the position sets are, reading the group as one-token positions changes nothing.
  ghost predicate AlwaysKept(qs: seq<Quant>) {
    forall sets: seq<set<nat>>, s: nat, e: nat :: |sets| == |qs| ==>
      (SeededMatch(WithSets(qs, sets), s, e) <==> GroupedMatch(WithSets(qs, sets), s, e))
  }

  // No match of the group is longer than one token.
  predicate OneTokenLong(qs: seq<Quant>) {
    TotalMax(qs, |qs|) <= 1 || exists i :: 0 <= i < |qs| && qs[i].min > MaxLen(qs[i].max)
  }

  lemma {:induction false} CutAtMost(qs: seq<Quant>, sets: seq<set<nat>>, cs: seq<nat>, n: nat)
    requires |sets| == |qs| && n <= |qs| && IsCut(WithSets(qs, sets), cs)
    ensures cs[n] <= cs[0] + TotalMax(qs, n)
  {
    if n > 0 {
      CutAtMost(qs, sets, cs, n - 1);
      assert PieceFits(WithSets(qs, sets)[n - 1], cs[n - 1], cs[n]);
    }
  }

  lemma {:induction false} ShortMatch(qs: seq<Quant>, sets: seq<set<nat>>, s: nat, e: nat)
    requires OneTokenLong(qs) && |sets| == |qs| && SeededMatch(WithSets(qs, sets), s, e)
    ensures e == s + 1
  {
    var pieces := WithSets(qs, sets);
    SeededIsMatch(pieces, s, e);
    var cs :| IsCut(pieces, cs) && cs[0] == s && cs[|pieces|] == e;
    CutAtMost(qs, sets, cs, |qs|);
    forall i | 0 <= i < |qs|
      ensures qs[i].min <= MaxLen(qs[i].max)
    {
      assert PieceFits(pieces[i], cs[i], cs[i + 1]);
    }
  }

  function LongestCut(qs: seq<Quant>): (r: seq<nat>)
    ensures |r| == |qs| + 1 && forall i :: 0 <= i <= |qs| ==> r[i] == TotalMax(qs, i)
  {
    seq(|qs| + 1, i requires 0 <= i <= |qs| => TotalMax(qs, i))
  }

  lemma {:induction false} TotalGrows(qs: seq<Quant>, i: nat, j: nat)
    requires i <= j <= |qs|
    ensures TotalMax(qs, i) <= TotalMax(qs, j)
    decreases j - i
  {
    if i < j {
      TotalGrows(qs, i, j - 1);
    }
  }

  // Otherwise, where every step may take every token, the group matches from 0 as far as its
  // quantifiers allow.
  lemma {:induction false} LongWitness(qs: seq<Quant>)
    requires !OneTokenLong(qs)
    ensures var n := TotalMax(qs, |qs|);
      n > 1 && SeededMatch(WithSets(qs, AllTokens(|qs|, n)), 0, n)
  {
    var n := TotalMax(qs, |qs|);
    var pieces, cs := WithSets(qs, AllTokens(|qs|, n)), LongestCut(qs);
    forall i | 0 <= i < |pieces|
      ensures PieceFits(pieces[i], cs[i], cs[i + 1])
    {
      TotalGrows(qs, i + 1, |qs|);
      assert qs[i].min <= MaxLen(qs[i].max);
    }
    if |qs| > 1 {
      assert RunStart(pieces[1].ps, 0);
    }
    assert Trace(pieces, |pieces|, cs);
    assert Reach(pieces, |pieces|, 0, n);
  }

  lemma {:induction false} KeptIffOneToken(qs: seq<Quant>)
    ensures AlwaysKept(qs) <==> OneTokenLong(qs)
  {
    if OneTokenLong(qs) {
      forall sets: seq<set<nat>>, s: nat, e: nat | |sets| == |qs|
        ensures SeededMatch(WithSets(qs, sets), s, e) <==> GroupedMatch(WithSets(qs, sets), s, e)
      {
        if SeededMatch(WithSets(qs, sets), s, e) {
          ShortMatch(qs, sets, s, e);
        } else if GroupedMatch(WithSets(qs, sets), s, e) {
          var end :| SeededMatch(WithSets(qs, sets), s, end);
          ShortMatch(qs, sets, s, end);
        }
      }
    } else {
      LongWitness(qs);
      var n := TotalMax(qs, |qs|);
      var sets := AllTokens(|qs|, n);
      assert |sets| == |qs| && SeededMatch(WithSets(qs, sets), 0, n);
      assert !GroupedMatch(WithSets(qs, sets), 0, n);
    }
  }

  // ---------------------------------------------------------------------------------
  // On a corpus.

  function GroupStep(node: PlanNode): SequenceStep {
    SequenceStep(node, 1, Some(1), None)
  }

  lemma SequenceInCorpus(steps: seq<SequenceStep>, c: Corpus, x: Span)
    requires ValidCorpus(c) && x in Meaning(SequenceScan(steps), c).value
    ensures x.start < c.tokenCount && x.start < x.end
  {
    var pieces := PiecesOf(steps, c);
    MeaningOfSequence(steps, c);
    if PerDocument(c, steps) {
      var docs := c.spans["document"];
      var d :| 0 <= d < |docs| && x in SpansIn(pieces, docs[d].start, docs[d].end);
      SpansStayInRange(pieces, docs[d].start, docs[d].end, x);
      assert docs[d].end <= docs[|docs| - 1].end;
    } else {
      SpansStayInRange(pieces, 0, c.tokenCount, x);
    }
  }

  lemma SpansStayInRange(pieces: seq<Piece>, lo: nat, hi: nat, x: Span)
    requires x in SpansIn(pieces, lo, hi)
    ensures lo <= x.start < x.end <= hi
  {
    assert SeededMatch(Restrict(pieces, lo, hi), x.start, x.end);
    assert Span(x.start, x.end) == x;
    SeededIsMatch(Restrict(pieces, lo, hi), x.start, x.end);
    if pieces != [] {
      MatchesInRange(pieces, lo, hi, x.start, x.end);
    }
  }

  lemma OnePiece(ps: set<nat>, s: nat, e: nat)
    ensures SeededMatch([Piece(ps, 1, Some(1))], s, e) <==> s in ps && e == s + 1
  {
    var pieces := [Piece(ps, 1, Some(1))];
    ReachFirst(pieces, s, e);
    assert Covered(ps, s, e) && e == s + 1 ==> s in ps;
  }

  lemma GroupStepMeaning(node: PlanNode, c: Corpus)
    requires ValidCorpus(c) && node.SequenceScan?
    ensures Meaning(node, c).Some?
    ensures Meaning(SequenceScan([GroupStep(node)]), c) == Some(Singletons(Starts(Meaning(node, c).value)))
  {
    var steps := [GroupStep(node)];
    var starts := Starts(Meaning(node, c).value);
    assert !PerDocument(c, steps);
    MeaningOfSequence(steps, c);
    MeaningOfSequence(node.steps, c);
    var pieces := PiecesOf(steps, c);
    assert pieces == [Piece(starts, 1, Some(1))];
    forall p | p in starts
      ensures p < c.tokenCount
    {
      var x :| x in Meaning(node, c).value && x.start == p;
      SequenceInCorpus(node.steps, c, x);
    }
    assert Clipped(starts, 0, c.tokenCount) == starts;
    assert Restrict(pieces, 0, c.tokenCount) == pieces;
    var group, single := SpansIn(pieces, 0, c.tokenCount), Singletons(starts);
    forall x
      ensures x in group <==> x in single
    {
      OnePiece(starts, x.start, x.end);
      assert Span(x.start, x.end) == x;
    }
    assert group == single;
  }

  // Using a sequence as a group step keeps its meaning exactly when all its hits are
  // one token long, as they are for the quantifiers of KeptIffOneToken.
  lemma GroupKeepsMeaningIff(node: PlanNode, c: Corpus)
    requires ValidCorpus(c) && node.SequenceScan?
    ensures Meaning(node, c).Some?
    ensures Meaning(SequenceScan([GroupStep(node)]), c) == Meaning(node, c) <==>
      forall x :: x in Meaning(node, c).value ==> x.end == x.start + 1
  {
    GroupStepMeaning(node, c);
    var spans := Meaning(node, c).value;
    if forall x :: x in spans ==> x.end == x.start + 1 {
      forall x
        ensures x in spans <==> x in Singletons(Starts(spans))
      {
        if x in Singletons(Starts(spans)) {
          var y :| y in spans && y.start == x.start;
          assert y == x;
        }
      }
      assert spans == Singletons(Starts(spans));
    }
  }

  // A group whose quantifiers allow one token at most is the same as a step and on its own,
  // on every corpus.
  lemma GroupKeepsMeaning(node: PlanNode, c: Corpus)
    requires ValidCorpus(c) && node.SequenceScan? && OneTokenLong(Quants(StepQuant, EngineSteps(node.steps)))
    ensures Meaning(SequenceScan([GroupStep(node)]), c) == Meaning(node, c)
  {
    GroupKeepsMeaningIff(node, c);
    forall x | x in Meaning(node, c).value
      ensures x.end == x.start + 1
    {
      SelectedIsShort(node.steps, c, x);
    }
  }

  lemma SelectedIsShort(steps: seq<SequenceStep>, c: Corpus, x: Span)
    requires Meaning(SequenceScan(steps), c).Some? && x in Meaning(SequenceScan(steps), c).value
    requires OneTokenLong(Quants(StepQuant, EngineSteps(steps)))
    ensures x.end == x.start + 1
  {
    var pieces := PiecesOf(steps, c);
    MeaningOfSequence(steps, c);
    if PerDocument(c, steps) {
      var docs := c.spans["document"];
      var d :| 0 <= d < |docs| && x in SpansIn(pieces, docs[d].start, docs[d].end);
      ShortInRange(steps, pieces, docs[d].start, docs[d].end, x);
    } else {
      ShortInRange(steps, pieces, 0, c.tokenCount, x);
    }
  }

  lemma {:induction false} ShortInRange(steps: seq<SequenceStep>, pieces: seq<Piece>, lo: nat, hi: nat, x: Span)
    requires |pieces| == |steps| && forall i :: 0 <= i < |steps| ==>
      pieces[i].min == steps[i].min && pieces[i].max == steps[i].max
    requires OneTokenLong(Quants(StepQuant, EngineSteps(steps))) && x in SpansIn(pieces, lo, hi)
    ensures x.end == x.start + 1
  {
    var sets := seq(|steps|, i requires 0 <= i < |steps| => Clipped(pieces[i].ps, lo, hi));
    assert WithSets(Quants(StepQuant, EngineSteps(steps)), sets) == Restrict(pieces, lo, hi);
    assert x == Span(x.start, x.end);
    ShortMatch(Quants(StepQuant, EngineSteps(steps)), sets, x.start, x.end);
  }
}
