// crates/montre-query/src/planner.rs, crates/montre-query/src/executor.rs: sequences, repetitions,
// captures and distances read directly off the positions, as the query language describes them.
module Readings {
  import opened Core
  import opened Runs
  import opened Sequence
  import opened Engine
  import opened Labelled
  import opened Ast
  import opened Plan
  import opened Hits
  import opened Constraints
  import opened QueryMeaning

  // ---------------------------------------------------------------------------------
  // Sequences of any parts.

  // A hit of the query begins here.
  ghost predicate BeginsAt(q: Query, c: Corpus, side: Side, i: nat) {
    Denoted(q, c, side).Some? && exists x :: x in Denoted(q, c, side).value && x.start == i
  }

  // What a part repeats, or is, begins here: labels aside.
  ghost predicate PartAt(part: Query, c: Corpus, side: Side, i: nat) {
    match part
    case Repetition(inner, _, _) => BeginsAt(if inner.Capture? then inner.inner else inner, c, side, i)
    case Capture(_, inner) => BeginsAt(inner, c, side, i)
    case _ => BeginsAt(part, c, side, i)
  }

  // The part takes the tokens of [a, b): one, or as many as a repetition permits, never more
  // than a hundred.
  ghost predicate Takes(part: Query, c: Corpus, side: Side, a: nat, b: nat) {
    && (forall i :: a <= i < b ==> PartAt(part, c, side, i))
    && if part.Repetition? then a <= b && part.min <= b - a <= 100 && (part.max.Some? ==> b - a <= part.max.value)
       else b == a + 1
  }

  // A label names the tokens that its part takes.
  function Label(part: Query, a: nat, b: nat): Captures {
    match part
    case Repetition(inner, _, _) => if inner.Capture? then [(inner.name, Span(a, b))] else []
    case Capture(name, _) => [(name, Span(a, b))]
    case _ => []
  }

  function Labels(parts: seq<Query>, cs: seq<nat>, k: nat): Captures
    requires k <= |parts| && k < |cs|
  {
    if k == 0 then [] else Labels(parts, cs, k - 1) + Label(parts[k - 1], cs[k - 1], cs[k])
  }

  // Part after part, from the start of the span to its end.
  ghost predicate Chain(parts: seq<Query>, c: Corpus, side: Side, x: Span, cs: seq<nat>) {
    && |cs| == |parts| + 1 && cs[0] == x.start && cs[|parts|] == x.end
    && forall i :: 0 <= i < |parts| ==> Takes(parts[i], c, side, cs[i], cs[i + 1])
  }

  // No word is asked for.
  predicate AsksNothing(q: Query) {
    q.Token? && forall k :: k in q.pattern.constraints ==> k.op.IsNe?
  }

  predicate Widens(part: Query) {
    match part
    case Repetition(inner, m, n) =>
      m != 1 || n != Some(1) || AsksNothing(if inner.Capture? then inner.inner else inner)
    case Capture(_, inner) => AsksNothing(inner)
    case _ => AsksNothing(part)
  }

  // Some part has a quantifier or asks for no word, and there are several documents.
  predicate KeepsToDocuments(c: Corpus, parts: seq<Query>) {
    && "document" in c.spans && |c.spans["document"]| > 1
    && exists i :: 0 <= i < |parts| && Widens(parts[i])
  }

  lemma PartReads(part: Query, c: Corpus, side: Side, a: nat, b: nat)
    ensures var p := PartOf(part);
      PieceFits(Piece(PositionsOf(Denoted(p.inner, c, side)), p.min, p.max), a, b) <==> Takes(part, c, side, a, b)
  {
    forall i: nat
      ensures i in PositionsOf(Denoted(PartOf(part).inner, c, side)) <==> PartAt(part, c, side, i)
    {
    }
  }

  lemma ChainIsCut(parts: seq<Query>, c: Corpus, side: Side, x: Span, cs: seq<nat>)
    ensures Chain(parts, c, side, x, cs) <==>
      IsCut(PartPieces(parts, c, side), cs) && cs[0] == x.start && cs[|parts|] == x.end
  {
    if |cs| == |parts| + 1 {
      forall i | 0 <= i < |parts|
        ensures PieceFits(PartPieces(parts, c, side)[i], cs[i], cs[i + 1]) <==>
          Takes(parts[i], c, side, cs[i], cs[i + 1])
      {
        PartReads(parts[i], c, side, cs[i], cs[i + 1]);
      }
    }
  }

  lemma DocumentsRead(c: Corpus, parts: seq<Query>)
    ensures KeepsToDocuments(c, parts) <==> ScansPerDocument(c, parts)
  {
    assert forall i :: 0 <= i < |parts| ==> (Widens(parts[i]) <==> PartBenefits(PartOf(parts[i])));
  }

  lemma {:induction false} LabelsRead(parts: seq<Query>, cs: seq<nat>, k: nat)
    requires k <= |parts| && k < |cs|
    ensures CapturesOf(QuerySteps(parts), cs, k) == Labels(parts, cs, k)
  {
    if k > 0 {
      LabelsRead(parts, cs, k - 1);
    }
  }

  // What can be found for a sequence: the spans that its parts can take one after the other,
  // inside one document where the sequence keeps to documents.
  lemma SequenceReads(parts: seq<Query>, c: Corpus, x: Span)
    ensures Denotation(Ast.Sequence(parts), c).Some?
    ensures x in Denotation(Ast.Sequence(parts), c).value <==>
      && x.start < x.end <= c.tokenCount && (exists cs :: Chain(parts, c, Possible, x, cs))
      && (KeepsToDocuments(c, parts) ==> InsideOne(c.spans["document"], x))
  {
    var pieces := PartPieces(parts, c, Possible);
    SequenceDenotes(Ast.Sequence(parts), c, Possible);
    DocumentsRead(c, parts);
    assert x == Span(x.start, x.end);
    forall cs
      ensures Chain(parts, c, Possible, x, cs) <==> IsCut(pieces, cs) && cs[0] == x.start && cs[|parts|] == x.end
    {
      ChainIsCut(parts, c, Possible, x, cs);
    }
  }

  // The captures of a hit name what the labelled parts take, in order.
  lemma SequenceLabels(parts: seq<Query>, c: Corpus, h: Hit)
    ensures Cuts(h, Ast.Sequence(parts), c) <==>
      exists cs :: Chain(parts, c, Possible, h.span, cs) && h.captures == Labels(parts, cs, |parts|)
  {
    var q, pieces := Ast.Sequence(parts), PartPieces(parts, c, Possible);
    SequenceCuts(h, q, c);
    forall cs
      ensures CutBy(h, parts, pieces, cs) <==>
        Chain(parts, c, Possible, h.span, cs) && h.captures == Labels(parts, cs, |parts|)
    {
      ChainIsCut(parts, c, Possible, h.span, cs);
      if |cs| == |parts| + 1 {
        LabelsRead(parts, cs, |parts|);
      }
    }
  }

  // Where the engine begins: the first part takes a token, or the second part could not take the
  // token before.
  ghost predicate Seeds(parts: seq<Query>, c: Corpus, lo: nat, x: Span, cs: seq<nat>) {
    && Chain(parts, c, Seeded, x, cs) && parts != [] && lo <= x.start
    && (x.start < cs[1] || (|parts| > 1 && PartAt(parts[1], c, Seeded, x.start) &&
                            (x.start == lo || !PartAt(parts[1], c, Seeded, x.start - 1))))
  }

  ghost predicate SeededFrom(parts: seq<Query>, c: Corpus, lo: nat, x: Span) {
    exists cs :: Seeds(parts, c, lo, x, cs)
  }

  lemma SeedsRead(parts: seq<Query>, c: Corpus, lo: nat, x: Span)
    ensures SeededFrom(parts, c, lo, x) <==> Explored(PartPieces(parts, c, Seeded), lo, x.start, x.end)
  {
    var pieces := PartPieces(parts, c, Seeded);
    forall cs
      ensures Seeds(parts, c, lo, x, cs) <==> ExploredBy(pieces, lo, x.start, x.end, cs)
    {
      ChainIsCut(parts, c, Seeded, x, cs);
      if |parts| > 1 {
        PartPositions(parts[1], c, Seeded);
      }
    }
  }

  lemma PartPositions(part: Query, c: Corpus, side: Side)
    ensures forall i: nat :: i in PositionsOf(Denoted(PartOf(part).inner, c, side)) <==> PartAt(part, c, side, i)
  {
  }

  ghost predicate InOneDocument(parts: seq<Query>, c: Corpus, d: int, x: Span)
    requires "document" in c.spans
  {
    var docs := c.spans["document"];
    0 <= d < |docs| && x.end <= docs[d].end && SeededFrom(parts, c, docs[d].start, x)
  }

  ghost predicate SeededIn(parts: seq<Query>, c: Corpus, x: Span) {
    if KeepsToDocuments(c, parts) then exists d :: InOneDocument(parts, c, d, x) else SeededFrom(parts, c, 0, x)
  }

  // What is found for a sequence, in one scan or document by document.
  lemma SequenceFinds(parts: seq<Query>, c: Corpus, x: Span)
    ensures Reported(Ast.Sequence(parts), c).Some?
    ensures x in Reported(Ast.Sequence(parts), c).value <==> x.start < x.end <= c.tokenCount && SeededIn(parts, c, x)
  {
    var pieces := PartPieces(parts, c, Seeded);
    SequenceDenotes(Ast.Sequence(parts), c, Seeded);
    DocumentsRead(c, parts);
    assert x == Span(x.start, x.end);
    if KeepsToDocuments(c, parts) {
      var docs := c.spans["document"];
      forall d | 0 <= d < |docs|
        ensures InOneDocument(parts, c, d, x) <==> InDocument(docs, d, pieces, x.start, x.end)
      {
        SeedsRead(parts, c, docs[d].start, x);
      }
    } else {
      SeedsRead(parts, c, 0, x);
    }
  }

  // A repetition or a capture alone is a sequence of one part.
  lemma SingleReads(q: Query, c: Corpus, side: Side)
    requires q.Repetition? || q.Capture?
    ensures Denoted(q, c, side) == Denoted(Ast.Sequence([q]), c, side)
    ensures forall h :: Cuts(h, q, c) <==> Cuts(h, Ast.Sequence([q]), c)
  {
    SequenceDenotes(q, c, side);
    SequenceDenotes(Ast.Sequence([q]), c, side);
    forall h
      ensures Cuts(h, q, c) <==> Cuts(h, Ast.Sequence([q]), c)
    {
      SequenceCuts(h, q, c);
      SequenceCuts(h, Ast.Sequence([q]), c);
    }
  }
}
