// crates/montre-query/src/ast.rs, crates/montre-query/src/executor.rs: what a parsed query denotes,
// without any plan.
module QueryMeaning {
  import opened Core
  import opened Runs
  import opened Sequence
  import opened Engine
  import opened Labelled
  import opened Align
  import opened Ast
  import opened Plan
  import opened Hits
  import opened Constraints
  import opened Determined
  import opened Verdict

  ghost predicate Compiles(k: Constraint, c: Corpus) {
    k.value.Regex? ==> c.compile(k.value.pattern).Some?
  }

  // Positions whose value on the layer is the one asked for.
  ghost function ValuePositions(k: Constraint, c: Corpus): set<nat>
    requires Compiles(k, c)
  {
    match k.value
    case Literal(v) => Bitmap(c, k.layer, v)
    case Regex(r) => RegexSet(c, k.layer, c.compile(r).value)
  }

  ghost predicate TokenMatches(p: TokenPattern, c: Corpus, i: nat)
    requires forall k :: k in p.constraints ==> Compiles(k, c)
  {
    i < c.tokenCount && forall k :: k in p.constraints ==> (i in ValuePositions(k, c) <==> k.op.IsEq?)
  }

  ghost function TokenDenotation(p: TokenPattern, c: Corpus): Option<set<Span>> {
    if exists k :: k in p.constraints && !Compiles(k, c) then None
    else Some(Singletons(set i | i in RangeSet(0, c.tokenCount) && TokenMatches(p, c, i)))
  }

  // A part of a sequence: a query, captured or not, repeated or not. A part that is not a token
  // contributes the positions where it begins.
  datatype Part = Part(inner: Query, min: nat, max: Option<nat>, capture: Option<string>)

  function PartOf(q: Query): (p: Part)
    ensures p.inner == q || p.inner < q
    ensures q.Repetition? || q.Capture? ==> p.inner < q
  {
    if q.Repetition? then
      if q.inner.Capture? then Part(q.inner.inner, q.min, q.max, Some(q.inner.name))
      else Part(q.inner, q.min, q.max, None)
    else if q.Capture? then Part(q.inner, 1, Some(1), Some(q.name))
    else Part(q, 1, Some(1), None)
  }

  function PartsOf(q: Query): seq<Query> {
    if q.Sequence? then q.parts else [q]
  }

  predicate IsSequence(q: Query) {
    q.Sequence? || q.Repetition? || q.Capture?
  }

  // No word of any pattern is constrained positively.
  predicate OnlyNegative(p: TokenPattern) {
    forall k :: k in p.constraints ==> k.op.IsNe?
  }

  // Parts that make the executor scan document by document.
  predicate PartBenefits(p: Part) {
    p.min != 1 || p.max != Some(1) || (p.inner.Token? && OnlyNegative(p.inner.pattern))
  }

  predicate ScansPerDocument(c: Corpus, parts: seq<Query>) {
    && "document" in c.spans && |c.spans["document"]| > 1
    && exists i :: 0 <= i < |parts| && PartBenefits(PartOf(parts[i]))
  }

  ghost function AlternationOf(ds: seq<Option<set<Span>>>): Option<set<Span>> {
    if exists i :: 0 <= i < |ds| && ds[i].None? then None
    else Some(Singletons(set i, p | 0 <= i < |ds| && p in PositionsOf(ds[i]) :: p))
  }

  // The pieces of a sequence, given the denotations of its parts.
  ghost function PiecesFrom(parts: seq<Query>, ds: seq<Option<set<Span>>>): (r: seq<Piece>)
    requires |ds| == |parts|
    ensures |r| == |parts|
    ensures forall i :: 0 <= i < |r| ==> r[i] == Piece(PositionsOf(ds[i]), PartOf(parts[i]).min, PartOf(parts[i]).max)
  {
    seq(|parts|, i requires 0 <= i < |parts| => Piece(PositionsOf(ds[i]), PartOf(parts[i]).min, PartOf(parts[i]).max))
  }

  // From which side a query is read: what can be found, what is sure to be found, or what is found
  // where captures play no part.
  datatype Side = Possible | Sure | Seeded

  // One scan of the corpus, or one of each document.
  ghost predicate ExploredIn(parts: seq<Query>, pieces: seq<Piece>, c: Corpus, s: nat, e: nat) {
    if ScansPerDocument(c, parts) then exists d :: InDocument(c.spans["document"], d, pieces, s, e)
    else Explored(pieces, 0, s, e)
  }

  ghost predicate InDocument(docs: seq<Span>, d: int, pieces: seq<Piece>, s: nat, e: nat) {
    0 <= d < |docs| && e <= docs[d].end && Explored(pieces, docs[d].start, s, e)
  }

  // The spans of the corpus that can be cut into fitting pieces; where the scan goes
  // document by document, a match may not cross a document boundary. What is found are the
  // spans with a cut that the engine explores.
  ghost function SequenceDenotation(parts: seq<Query>, pieces: seq<Piece>, c: Corpus, side: Side): (r: set<Span>) {
    if side.Seeded? then
      set s, e | s in RangeSet(0, c.tokenCount) && e in RangeSet(0, c.tokenCount + 1)
          && s < e && ExploredIn(parts, pieces, c, s, e) :: Span(s, e)
    else
      set s, e | s in RangeSet(0, c.tokenCount) && e in RangeSet(0, c.tokenCount + 1)
          && Matches(pieces, s, e)
          && (ScansPerDocument(c, parts) ==> InsideOne(c.spans["document"], Span(s, e))) :: Span(s, e)
  }

  ghost function FilterDenotation(d: Option<set<Span>>, keep: Span -> bool): Option<set<Span>> {
    if d.None? then None else Some(set x | x in d.value && keep(x))
  }

  function StepOf(part: Query): Step {
    var p := PartOf(part);
    Step(p.min, p.max, false, p.capture)
  }

  function QuerySteps(parts: seq<Query>): (r: seq<Step>)
    ensures |r| == |parts| && forall i :: 0 <= i < |r| ==> r[i] == StepOf(parts[i])
  {
    seq(|parts|, i requires 0 <= i < |parts| => StepOf(parts[i]))
  }

  // The captures of the hit are those of a cut of its span into fitting pieces.
  ghost predicate CutBy(h: Hit, parts: seq<Query>, pieces: seq<Piece>, cs: seq<nat>)
    requires |pieces| == |parts|
  {
    && IsCut(pieces, cs)
    && cs[0] == h.span.start && cs[|parts|] == h.span.end
    && h.captures == CapturesOf(QuerySteps(parts), cs, |parts|)
  }

  ghost predicate CutInto(h: Hit, parts: seq<Query>, pieces: seq<Piece>)
    requires |pieces| == |parts|
  {
    exists cs :: CutBy(h, parts, pieces, cs)
  }

  // What a query denotes, from each side. A constraint leaves the spans that have captures
  // satisfying it, or, for what is sure to be found, the spans all of whose captures do. A group
  // inside a sequence contributes the positions where it begins.
  ghost function Denoted(q: Query, c: Corpus, side: Side): Option<set<Span>>
    decreases q, 0
  {
    match q
    case Token(p) => TokenDenotation(p, c)
    case Or(alternatives) =>
      AlternationOf(seq(|alternatives|, i requires 0 <= i < |alternatives| => Denoted(alternatives[i], c, side)))
    case Within(inner, layer) =>
      if layer in c.spans then FilterDenotation(Denoted(inner, c, side), x => InsideOne(c.spans[layer], x))
      else Denoted(inner, c, side)
    case WithinComponent(inner, names) => FilterDenotation(Denoted(inner, c, side), x => InComponents(c, x, names))
    case WithinDocument(inner, names) => FilterDenotation(Denoted(inner, c, side), x => InDocuments(c, x, names))
    case Project(inner, alignment) =>
      if Denoted(inner, c, side).None? || Projection(c, alignment).None? then None
      else if !HasProjectionLayers(c, Projection(c, alignment).value) then Some({})
      else Some(ProjectionImage(ProjectionSetting(c, alignment), Denoted(inner, c, side).value))
    case Constrained(inner, gs) => FilterDenotation(Denoted(inner, c, side), x => Meets(x, inner, gs, c, side))
    case Sequence(parts) =>
      var ds := seq(|parts|, i requires 0 <= i < |parts| => Denoted(PartOf(parts[i]).inner, c, side));
      Some(SequenceDenotation(parts, PiecesFrom(parts, ds), c, side))
    case _ =>
      Some(SequenceDenotation([q], PiecesFrom([q], [Denoted(PartOf(q).inner, c, side)]), c, side))
  }

  // The captures that a hit of the query may have.
  ghost predicate Cuts(h: Hit, q: Query, c: Corpus)
    decreases q, 0
  {
    match q
    case Within(inner, _) => Cuts(h, inner, c)
    case WithinComponent(inner, _) => Cuts(h, inner, c)
    case WithinDocument(inner, _) => Cuts(h, inner, c)
    case Constrained(inner, gs) => Cuts(h, inner, c) && SatisfiesAll(c, h, gs)
    case Sequence(parts) =>
      var ds := seq(|parts|, i requires 0 <= i < |parts| => Denoted(PartOf(parts[i]).inner, c, Possible));
      CutInto(h, parts, PiecesFrom(parts, ds))
    case Repetition(_, _, _) => CutInto(h, [q], PiecesFrom([q], [Denoted(PartOf(q).inner, c, Possible)]))
    case Capture(_, inner) => CutInto(h, [q], PiecesFrom([q], [Denoted(inner, c, Possible)]))
    case _ => h.captures == []
  }

  // Some captures of the span satisfy the constraints; or all do.
  ghost predicate Meets(x: Span, q: Query, gs: seq<GlobalConstraint>, c: Corpus, side: Side)
    decreases q, 1
  {
    if side.Sure? then forall h: Hit :: h.span == x && Cuts(h, q, c) ==> SatisfiesAll(c, h, gs)
    else exists h: Hit :: h.span == x && Cuts(h, q, c) && SatisfiesAll(c, h, gs)
  }

  ghost function Denotation(q: Query, c: Corpus): Option<set<Span>> {
    Denoted(q, c, Possible)
  }

  ghost function Assured(q: Query, c: Corpus): Option<set<Span>> {
    Denoted(q, c, Sure)
  }

  ghost function Reported(q: Query, c: Corpus): Option<set<Span>> {
    Denoted(q, c, Seeded)
  }

  ghost function PartPieces(parts: seq<Query>, c: Corpus, side: Side): (r: seq<Piece>)
    ensures |r| == |parts|
    ensures forall i :: 0 <= i < |r| ==>
      var p := PartOf(parts[i]);
      r[i] == Piece(PositionsOf(Denoted(p.inner, c, side)), p.min, p.max)
  {
    PiecesFrom(parts, seq(|parts|, i requires 0 <= i < |parts| => Denoted(PartOf(parts[i]).inner, c, side)))
  }

  lemma SequenceDenotes(q: Query, c: Corpus, side: Side)
    requires IsSequence(q)
    ensures Denoted(q, c, side) == Some(SequenceDenotation(PartsOf(q), PartPieces(PartsOf(q), c, side), c, side))
  {
    if !q.Sequence? {
      assert PiecesFrom([q], [Denoted(PartOf(q).inner, c, side)]) == PartPieces([q], c, side);
    }
  }

  lemma SequenceCuts(h: Hit, q: Query, c: Corpus)
    requires IsSequence(q)
    ensures Cuts(h, q, c) <==> CutInto(h, PartsOf(q), PartPieces(PartsOf(q), c, Possible))
  {
    if !q.Sequence? {
      assert PiecesFrom([q], [Denoted(PartOf(q).inner, c, Possible)]) == PartPieces([q], c, Possible);
    }
  }

  function PartQuant(q: Query): Quant {
    Quant(PartOf(q).min, PartOf(q).max)
  }

  // Every sequence in the query has quantifiers on which the engine misses nothing.
  ghost predicate SafeQuery(q: Query)
    decreases q
  {
    match q
    case Token(_) => true
    case Or(alternatives) => forall i :: 0 <= i < |alternatives| ==> SafeQuery(alternatives[i])
    case Sequence(parts) =>
      FirstStepSafe(Quants(PartQuant, parts)) && forall i :: 0 <= i < |parts| ==> SafeQuery(PartOf(parts[i]).inner)
    case Repetition(_, _, _) => FirstStepSafe(Quants(PartQuant, [q])) && SafeQuery(PartOf(q).inner)
    case Capture(_, inner) => FirstStepSafe(Quants(PartQuant, [q])) && SafeQuery(inner)
    case _ => SafeQuery(q.inner)
  }

  // The quantifiers of the query leave no choice in what the constraints read.
  predicate LabelsFixed(q: Query, gs: seq<GlobalConstraint>)
    decreases q
  {
    match q
    case Within(inner, _) => LabelsFixed(inner, gs)
    case WithinComponent(inner, _) => LabelsFixed(inner, gs)
    case WithinDocument(inner, _) => LabelsFixed(inner, gs)
    case Constrained(inner, _) => LabelsFixed(inner, gs)
    case _ => IsSequence(q) ==> VerdictFixed(QuerySteps(PartsOf(q)), gs)
  }

  // So it is for all constraints, wherever they stand in the query.
  predicate AllFixed(q: Query)
    decreases q
  {
    match q
    case Token(_) => true
    case Or(alternatives) => forall i :: 0 <= i < |alternatives| ==> AllFixed(alternatives[i])
    case Sequence(parts) => forall i :: 0 <= i < |parts| ==> AllFixed(PartOf(parts[i]).inner)
    case Repetition(_, _, _) => AllFixed(PartOf(q).inner)
    case Capture(_, inner) => AllFixed(inner)
    case Constrained(inner, gs) => LabelsFixed(inner, gs) && AllFixed(inner)
    case _ => AllFixed(q.inner)
  }

  ghost predicate SafeInners(parts: seq<Query>) {
    forall i :: 0 <= i < |parts| ==> SafeQuery(PartOf(parts[i]).inner)
  }

  lemma SafeParts(q: Query)
    requires IsSequence(q)
    ensures SafeQuery(q) <==> FirstStepSafe(Quants(PartQuant, PartsOf(q))) && SafeInners(PartsOf(q))
  {
    if !q.Sequence? {
      assert SafeInners([q]) <==> SafeQuery(PartOf([q][0]).inner);
    }
  }

  predicate FixedInners(parts: seq<Query>) {
    forall i :: 0 <= i < |parts| ==> AllFixed(PartOf(parts[i]).inner)
  }

  lemma FixedParts(q: Query)
    requires IsSequence(q)
    ensures AllFixed(q) ==> FixedInners(PartsOf(q))
  {
  }

  // ---------------------------------------------------------------------------------
  // Where nothing that the constraints read varies, the two sides are the same.

  lemma CutIsLabelled(h: Hit, parts: seq<Query>, c: Corpus) returns (cs: seq<nat>)
    requires CutInto(h, parts, PartPieces(parts, c, Possible))
    ensures LabelledBy(h, QuerySteps(parts), cs)
  {
    cs :| CutBy(h, parts, PartPieces(parts, c, Possible), cs);
    CutHasLengths(QuerySteps(parts), PartPieces(parts, c, Possible), cs);
  }

  lemma SequenceVerdict(q: Query, gs: seq<GlobalConstraint>, g: Hit, h: Hit, c: Corpus)
    requires IsSequence(q) && LabelsFixed(q, gs) && Cuts(g, q, c) && Cuts(h, q, c) && g.span == h.span
    ensures SatisfiesAll(c, g, gs) <==> SatisfiesAll(c, h, gs)
  {
    SequenceCuts(g, q, c);
    SequenceCuts(h, q, c);
    var cs := CutIsLabelled(g, PartsOf(q), c);
    var ds := CutIsLabelled(h, PartsOf(q), c);
    FixedVerdict(c, g, h, QuerySteps(PartsOf(q)), cs, ds, gs);
  }

  // All captures of a span get the same verdict.
  lemma {:induction false} CutsVerdict(q: Query, gs: seq<GlobalConstraint>, g: Hit, h: Hit, c: Corpus)
    requires LabelsFixed(q, gs) && Cuts(g, q, c) && Cuts(h, q, c) && g.span == h.span
    ensures SatisfiesAll(c, g, gs) <==> SatisfiesAll(c, h, gs)
    decreases q
  {
    match q {
      case Within(inner, _) => CutsVerdict(inner, gs, g, h, c);
      case WithinComponent(inner, _) => CutsVerdict(inner, gs, g, h, c);
      case WithinDocument(inner, _) => CutsVerdict(inner, gs, g, h, c);
      case Constrained(inner, _) => CutsVerdict(inner, gs, g, h, c);
      case Sequence(_) => SequenceVerdict(q, gs, g, h, c);
      case Repetition(_, _, _) => SequenceVerdict(q, gs, g, h, c);
      case Capture(_, _) => SequenceVerdict(q, gs, g, h, c);
      case _ =>
    }
  }

  lemma SequenceHasCut(q: Query, x: Span, c: Corpus) returns (h: Hit)
    requires IsSequence(q) && x in Denotation(q, c).value
    ensures h.span == x && Cuts(h, q, c)
  {
    var parts := PartsOf(q);
    var pieces := PartPieces(parts, c, Possible);
    SequenceDenotes(q, c, Possible);
    assert Matches(pieces, x.start, x.end);
    var cs :| IsCut(pieces, cs) && cs[0] == x.start && cs[|pieces|] == x.end;
    h := Hit(x, CapturesOf(QuerySteps(parts), cs, |parts|));
    assert CutBy(h, parts, pieces, cs);
    SequenceCuts(h, q, c);
  }

  // Every span of the denotation has captures.
  lemma {:induction false} HasCut(q: Query, x: Span, c: Corpus) returns (h: Hit)
    requires Denotation(q, c).Some? && x in Denotation(q, c).value
    ensures h.span == x && Cuts(h, q, c)
    decreases q
  {
    match q {
      case Within(inner, _) => h := HasCut(inner, x, c);
      case WithinComponent(inner, _) => h := HasCut(inner, x, c);
      case WithinDocument(inner, _) => h := HasCut(inner, x, c);
      case Constrained(inner, gs) =>
        assert Meets(x, inner, gs, c, Possible);
        h :| h.span == x && Cuts(h, inner, c) && SatisfiesAll(c, h, gs);
      case Sequence(_) => h := SequenceHasCut(q, x, c);
      case Repetition(_, _, _) => h := SequenceHasCut(q, x, c);
      case Capture(_, _) => h := SequenceHasCut(q, x, c);
      case _ => h := Hit(x, []);
    }
  }

  lemma FixedMeets(q: Query, gs: seq<GlobalConstraint>, x: Span, c: Corpus)
    requires LabelsFixed(q, gs) && Denotation(q, c).Some? && x in Denotation(q, c).value
    ensures Meets(x, q, gs, c, Sure) <==> Meets(x, q, gs, c, Possible)
  {
    var g := HasCut(q, x, c);
    forall h: Hit | h.span == x && Cuts(h, q, c)
      ensures SatisfiesAll(c, g, gs) <==> SatisfiesAll(c, h, gs)
    {
      CutsVerdict(q, gs, g, h, c);
    }
  }

  lemma ConstrainedAssured(q: Query, c: Corpus)
    requires q.Constrained? && LabelsFixed(q.inner, q.constraints) && Assured(q.inner, c) == Denotation(q.inner, c)
    ensures Assured(q, c) == Denotation(q, c)
  {
    if Denotation(q.inner, c).Some? {
      forall x | x in Denotation(q.inner, c).value
        ensures Meets(x, q.inner, q.constraints, c, Sure) <==> Meets(x, q.inner, q.constraints, c, Possible)
      {
        FixedMeets(q.inner, q.constraints, x, c);
      }
      assert Assured(q, c).value == Denotation(q, c).value;
    }
  }

  lemma SequenceAssured(q: Query, c: Corpus)
    requires IsSequence(q)
    requires forall i :: 0 <= i < |PartsOf(q)| ==>
      Assured(PartOf(PartsOf(q)[i]).inner, c) == Denotation(PartOf(PartsOf(q)[i]).inner, c)
    ensures Assured(q, c) == Denotation(q, c)
  {
    SequenceDenotes(q, c, Sure);
    SequenceDenotes(q, c, Possible);
    assert PartPieces(PartsOf(q), c, Sure) == PartPieces(PartsOf(q), c, Possible);
  }

  ghost function DenotedEach(qs: seq<Query>, c: Corpus, side: Side): (r: seq<Option<set<Span>>>)
    ensures |r| == |qs| && forall i :: 0 <= i < |r| ==> r[i] == Denoted(qs[i], c, side)
  {
    seq(|qs|, i requires 0 <= i < |qs| => Denoted(qs[i], c, side))
  }

  lemma AlternationDenotes(q: Query, c: Corpus, side: Side)
    requires q.Or?
    ensures Denoted(q, c, side) == AlternationOf(DenotedEach(q.alternatives, c, side))
  {
  }

  lemma WrapAssured(q: Query, c: Corpus)
    requires q.Within? || q.WithinComponent? || q.WithinDocument? || q.Project?
    requires Assured(q.inner, c) == Denotation(q.inner, c)
    ensures Assured(q, c) == Denotation(q, c)
  {
  }

  // What is sure to be found is all that can be found.
  lemma {:induction false} FixedIsAssured(q: Query, c: Corpus)
    requires AllFixed(q)
    ensures Assured(q, c) == Denotation(q, c)
    decreases q
  {
    match q {
      case Token(_) =>
      case Or(alternatives) =>
        forall i | 0 <= i < |alternatives|
          ensures Assured(alternatives[i], c) == Denotation(alternatives[i], c)
        {
          FixedIsAssured(alternatives[i], c);
        }
        AlternationDenotes(q, c, Sure);
        AlternationDenotes(q, c, Possible);
        assert DenotedEach(alternatives, c, Sure) == DenotedEach(alternatives, c, Possible);
      case Within(inner, _) =>
        FixedIsAssured(inner, c);
        WrapAssured(q, c);
      case WithinComponent(inner, _) =>
        FixedIsAssured(inner, c);
        WrapAssured(q, c);
      case WithinDocument(inner, _) =>
        FixedIsAssured(inner, c);
        WrapAssured(q, c);
      case Project(inner, _) =>
        FixedIsAssured(inner, c);
        WrapAssured(q, c);
      case Constrained(inner, _) =>
        FixedIsAssured(inner, c);
        ConstrainedAssured(q, c);
      case Sequence(parts) =>
        FixedParts(q);
        forall i | 0 <= i < |parts|
          ensures Assured(PartOf(parts[i]).inner, c) == Denotation(PartOf(parts[i]).inner, c)
        {
          assert parts[i] < q;
          FixedIsAssured(PartOf(parts[i]).inner, c);
        }
        SequenceAssured(q, c);
      case Repetition(_, _, _) =>
        FixedIsAssured(PartOf(q).inner, c);
        SequenceAssured(q, c);
      case Capture(_, inner) =>
        FixedIsAssured(PartOf(q).inner, c);
        SequenceAssured(q, c);
    }
  }
}
