// crates/montre-query/src/executor.rs: execute_sequence chooses between one scan of the
// whole corpus and one scan per document. When the choice cannot be observed.
module Dispatch {
  import opened Core
  import opened Runs
  import opened Sequence
  import opened Plan
  import opened Execute

  ghost function SetsOf(pieces: seq<Piece>): (r: seq<set<nat>>)
    ensures |r| == |pieces| && forall i :: 0 <= i < |r| ==> r[i] == pieces[i].ps
  {
    seq(|pieces|, i requires 0 <= i < |pieces| => pieces[i].ps)
  }

  // With safe quantifiers the engine returns exactly the declarative matches.
  lemma SafePieces(pieces: seq<Piece>, s: nat, e: nat)
    requires FirstStepSafe(Quants(PieceQuant, pieces))
    ensures SeededMatch(pieces, s, e) <==> Matches(pieces, s, e)
  {
    var qs, sets := Quants(PieceQuant, pieces), SetsOf(pieces);
    assert WithSets(qs, sets) == pieces;
    if Matches(pieces, s, e) {
      SafeIsComplete(qs, sets, s, e);
    }
    if SeededMatch(pieces, s, e) {
      SeededIsMatch(pieces, s, e);
    }
  }

  // A scan of [lo, hi) finds the whole-corpus matches that lie inside [lo, hi).
  lemma RangeIsLocal(pieces: seq<Piece>, lo: nat, hi: nat, s: nat, e: nat)
    requires FirstStepSafe(Quants(PieceQuant, pieces))
    ensures SeededMatch(Restrict(pieces, lo, hi), s, e) <==> Matches(pieces, s, e) && lo <= s && e <= hi
  {
    assert Quants(PieceQuant, Restrict(pieces, lo, hi)) == Quants(PieceQuant, pieces);
    SafePieces(Restrict(pieces, lo, hi), s, e);
    if pieces == [] {
      assert Restrict(pieces, lo, hi) == [];
    } else {
      MatchesInRange(pieces, lo, hi, s, e);
    }
  }

  // Whatever the position sets, restricting a scan to a range is the same as filtering.
  ghost predicate AlwaysLocal(qs: seq<Quant>) {
    forall sets: seq<set<nat>>, lo: nat, hi: nat, s: nat, e: nat :: |sets| == |qs| ==>
      (SeededMatch(Restrict(WithSets(qs, sets), lo, hi), s, e) <==>
       SeededMatch(WithSets(qs, sets), s, e) && lo <= s && e <= hi)
  }

  // The same condition as for completeness: an unsafe first step sees a range boundary as
  // the beginning of a run.
  lemma LocalIffSafe(qs: seq<Quant>)
    ensures AlwaysLocal(qs) <==> FirstStepSafe(qs)
  {
    if FirstStepSafe(qs) {
      forall sets: seq<set<nat>>, lo: nat, hi: nat, s: nat, e: nat | |sets| == |qs|
        ensures SeededMatch(Restrict(WithSets(qs, sets), lo, hi), s, e) <==>
          SeededMatch(WithSets(qs, sets), s, e) && lo <= s && e <= hi
      {
        assert Quants(PieceQuant, WithSets(qs, sets)) == qs;
        RangeIsLocal(WithSets(qs, sets), lo, hi, s, e);
        SafePieces(WithSets(qs, sets), s, e);
      }
    } else {
      var sets, cs, n := UnsafeWitness(qs);
      var pieces := WithSets(qs, sets);
      var inner := Restrict(pieces, 1, n);
      forall i | 0 <= i < |pieces|
        ensures PieceFits(inner[i], cs[i], cs[i + 1])
      {
        CutsAscend(pieces, |pieces|, cs, 0, i);
        CutsAscend(pieces, |pieces|, cs, i + 1, |pieces|);
        PieceInRange(pieces, 1, n, i, cs[i], cs[i + 1]);
      }
      assert RunStart(inner[1].ps, 1);
      assert Trace(inner, |pieces|, cs);
      assert SeededMatch(inner, 1, n);
    }
  }

  lemma TilesCover(spans: seq<Span>, total: nat, p: nat)
    requires Tiles(spans, total) && p < total
    ensures exists i :: 0 <= i < |spans| && spans[i].start <= p < spans[i].end
  {
    var i := 0;
    while spans[i].end <= p
      invariant 0 <= i < |spans| && spans[i].start <= p
      decreases |spans| - i
    {
      assert spans[i].end == spans[i + 1].start;
      i := i + 1;
    }
  }

  // The per-document results are the whole-corpus matches that lie inside one document.
  lemma PerDocumentIsFiltered(c: Corpus, pieces: seq<Piece>, x: Span)
    requires ValidCorpus(c) && "document" in c.spans && FirstStepSafe(Quants(PieceQuant, pieces))
    ensures x in PerDocumentSpans(c, pieces, |c.spans["document"]|) <==>
      x in SpansIn(pieces, 0, c.tokenCount) && InsideOne(c.spans["document"], x)
  {
    var docs := c.spans["document"];
    assert x == Span(x.start, x.end);
    RangeIsLocal(pieces, 0, c.tokenCount, x.start, x.end);
    forall d | 0 <= d < |docs|
      ensures docs[d].end <= c.tokenCount
      ensures x in SpansIn(pieces, docs[d].start, docs[d].end) <==>
        Matches(pieces, x.start, x.end) && docs[d].start <= x.start && x.end <= docs[d].end
    {
      DocumentInCorpus(c, d);
      RangeIsLocal(pieces, docs[d].start, docs[d].end, x.start, x.end);
    }
  }

  lemma RangeSound(pieces: seq<Piece>, lo: nat, hi: nat, x: Span)
    requires x in SpansIn(pieces, lo, hi)
    ensures Matches(pieces, x.start, x.end) && lo <= x.start < x.end <= hi
  {
    assert x == Span(x.start, x.end);
    var inner := Restrict(pieces, lo, hi);
    SeededIsMatch(inner, x.start, x.end);
    MatchesInRange(pieces, lo, hi, x.start, x.end);
  }

  // Every span a sequence plan selects is a match of the corpus, and lies inside one
  // document when the scan goes document by document.
  lemma SpansAreMatches(c: Corpus, steps: seq<SequenceStep>, pieces: seq<Piece>, x: Span)
    requires ValidCorpus(c) && x in SequenceSpans(c, steps, pieces)
    ensures Matches(pieces, x.start, x.end) && x.start < x.end <= c.tokenCount
    ensures PerDocument(c, steps) ==> InsideOne(c.spans["document"], x)
  {
    if PerDocument(c, steps) {
      var docs := c.spans["document"];
      var d :| 0 <= d < |docs| && x in SpansIn(pieces, docs[d].start, docs[d].end);
      DocumentInCorpus(c, d);
      RangeSound(pieces, docs[d].start, docs[d].end, x);
    } else {
      RangeSound(pieces, 0, c.tokenCount, x);
    }
  }

  // Serial and per-document scanning agree under `within document`.
  lemma WithinDocumentAgrees(c: Corpus, steps: seq<SequenceStep>)
    requires ValidCorpus(c) && "document" in c.spans && FirstStepSafe(Quants(PieceQuant, PiecesOf(steps, c)))
    ensures Meaning(FilterBySpan(SequenceScan(steps), "document"), c) ==
      Some(set x | x in SpansIn(PiecesOf(steps, c), 0, c.tokenCount) && InsideOne(c.spans["document"], x))
    ensures Meaning(FilterBySpan(SequenceScan(steps), "document"), c) ==
      Some(PerDocumentSpans(c, PiecesOf(steps, c), |c.spans["document"]|))
  {
    var pieces, docs := PiecesOf(steps, c), c.spans["document"];
    var serial := set x | x in SpansIn(pieces, 0, c.tokenCount) && InsideOne(docs, x);
    var perDocument := PerDocumentSpans(c, pieces, |docs|);
    forall x: Span
      ensures x in perDocument <==> x in serial
    {
      PerDocumentIsFiltered(c, pieces, x);
    }
    MeaningOfSequence(steps, c);
    assert perDocument == serial;
    var inner := SequenceSpans(c, steps, pieces);
    assert Meaning(FilterBySpan(SequenceScan(steps), "document"), c) == Some(set x | x in inner && InsideOne(docs, x));
    assert (set x | x in inner && InsideOne(docs, x)) == serial;
  }
}
