// crates/montre-query/src/planner.rs: when a plan implements a query, as a relation between all that
// executing the plan may return and what the query denotes.
module Implements {
  import opened Core
  import opened Runs
  import opened Sequence
  import opened Engine
  import opened Labelled
  import opened Determined
  import opened Ast
  import opened Plan
  import opened Hits
  import opened Constraints
  import opened Verdict
  import opened Outcomes
  import opened Dispatch
  import opened Execute
  import opened QueryMeaning

  // No span outside the denotation, and captures of the query's own cuts.
  ghost predicate Belong(hs: seq<Hit>, q: Query, c: Corpus) {
    && Denotation(q, c).Some?
    && forall h :: h in hs ==> h.span in Denotation(q, c).value && Cuts(h, q, c)
  }

  ghost predicate Cover(hs: seq<Hit>, q: Query, c: Corpus) {
    Assured(q, c).Some? && Assured(q, c).value <= SpanSet(hs)
  }

  ghost predicate Equals(hs: seq<Hit>, q: Query, c: Corpus) {
    Reported(q, c).Some? && SpanSet(hs) == Reported(q, c).value
  }

  // Nothing else than the query denotes; all that is sure to be found where the engine misses
  // nothing; and exactly what is reported where the quantifiers fix what the constraints read.
  ghost predicate Fulfils(hs: seq<Hit>, q: Query, c: Corpus) {
    Belong(hs, q, c) && (SafeQuery(q) ==> Cover(hs, q, c)) && (AllFixed(q) ==> Equals(hs, q, c))
  }

  ghost predicate YieldsFulfil(node: PlanNode, q: Query, c: Corpus) {
    forall hs :: Yields(node, hs, c) ==> Fulfils(hs, q, c)
  }

  // Executing fails exactly where the denotation does, and otherwise fulfils the query.
  ghost predicate Faithful(node: PlanNode, q: Query, c: Corpus) {
    FailsAlike(node, q, c) && (Meaning(node, c).Some? ==> YieldsFulfil(node, q, c))
  }

  ghost predicate FailsAlike(node: PlanNode, q: Query, c: Corpus) {
    && (Meaning(node, c).Some? <==> Denotation(q, c).Some?)
    && (Meaning(node, c).Some? <==> Assured(q, c).Some?)
    && (Meaning(node, c).Some? <==> Reported(q, c).Some?)
  }

  ghost predicate Realizes(node: PlanNode, q: Query) {
    forall c :: ValidCorpus(c) ==> Faithful(node, q, c)
  }

  predicate StartsFromAll(node: PlanNode) {
    node.ScanAll? || (node.Difference? && node.base.ScanAll?)
  }

  // The plan of a query implements it, and its shape says whether a step made of it calls for
  // per-document scanning.
  ghost predicate PlanFor(node: PlanNode, q: Query) {
    Realizes(node, q) && (StartsFromAll(node) <==> q.Token? && OnlyNegative(q.pattern))
  }

  lemma SpansBetween(node: PlanNode, q: Query, hs: seq<Hit>, c: Corpus)
    requires Faithful(node, q, c) && Meaning(node, c).Some? && Yields(node, hs, c)
    ensures SpanSet(hs) <= Denotation(q, c).value
    ensures SafeQuery(q) ==> Assured(q, c).value <= SpanSet(hs)
    ensures AllFixed(q) ==> SpanSet(hs) == Reported(q, c).value
  {
    assert Fulfils(hs, q, c);
  }

  // ---------------------------------------------------------------------------------
  // Tokens.

  lemma {:induction false} UnlabelledGenuine(node: PlanNode, h: Hit, c: Corpus)
    requires Unlabelled(node)
    ensures Genuine(h, node, c) <==> h.captures == []
    decreases node
  {
    if node.Difference? {
      UnlabelledGenuine(node.base, h, c);
    }
  }

  lemma TokenFaithful(node: PlanNode, q: Query, c: Corpus)
    requires q.Token? && Pure(node) && Unlabelled(node) && Meaning(node, c) == TokenDenotation(q.pattern, c)
    ensures Faithful(node, q, c)
  {
    if Meaning(node, c).Some? {
      forall hs | Yields(node, hs, c)
        ensures Fulfils(hs, q, c)
      {
        PureYields(node, hs, c);
        forall h | h in hs
          ensures Cuts(h, q, c)
        {
          UnlabelledGenuine(node, h, c);
        }
      }
    }
  }

  // ---------------------------------------------------------------------------------
  // Sequences.

  // A step for a part: its quantifier, its label, and a plan of what is inside.
  ghost predicate StepFor(step: SequenceStep, part: Query) {
    var p := PartOf(part);
    step.min == p.min && step.max == p.max && step.capture == p.capture && PlanFor(step.node, p.inner)
  }

  ghost predicate StepsFor(steps: seq<SequenceStep>, parts: seq<Query>) {
    |steps| == |parts| && forall i :: 0 <= i < |parts| ==> StepFor(steps[i], parts[i])
  }

  // The same quantifiers over smaller position sets.
  ghost predicate Smaller(a: seq<Piece>, b: seq<Piece>) {
    |a| == |b| && forall i :: 0 <= i < |a| ==> a[i].ps <= b[i].ps && a[i].min == b[i].min && a[i].max == b[i].max
  }

  lemma StartsIncluded(a: set<Span>, b: set<Span>)
    requires a <= b
    ensures Starts(a) <= Starts(b)
  {
  }

  // What a step is given: starts of its part, and all that are sure to be found.
  lemma GivenPart(node: PlanNode, i: nat, piece: Piece, part: Query, c: Corpus)
    requires ValidCorpus(c) && node.SequenceScan? && i < |node.steps| && StepFor(node.steps[i], part)
    requires GivenBy(node, i, piece, c)
    ensures var p := PartOf(part);
      && piece.min == p.min && piece.max == p.max && piece.ps <= PositionsOf(Denotation(p.inner, c))
      && (SafeQuery(p.inner) ==> PositionsOf(Assured(p.inner, c)) <= piece.ps)
      && (AllFixed(p.inner) ==> piece.ps == PositionsOf(Reported(p.inner, c)))
  {
    var inner, q := node.steps[i].node, PartOf(part).inner;
    assert Faithful(inner, q, c);
    if Meaning(inner, c).Some? {
      var a :| Yields(inner, a, c) && piece.ps == HitStarts(a);
      SpansBetween(inner, q, a, c);
      StartsIncluded(SpanSet(a), Denotation(q, c).value);
      if SafeQuery(q) {
        StartsIncluded(Assured(q, c).value, SpanSet(a));
      }
    }
  }

  // The pieces that a scan is given lie between those of the query's parts.
  lemma PiecesGivenFor(node: PlanNode, parts: seq<Query>, pieces: seq<Piece>, c: Corpus)
    requires ValidCorpus(c) && node.SequenceScan? && StepsFor(node.steps, parts) && PiecesGiven(node, pieces, c)
    ensures Smaller(pieces, PartPieces(parts, c, Possible))
    ensures SafeInners(parts) ==> Smaller(PartPieces(parts, c, Sure), pieces)
    ensures FixedInners(parts) ==> pieces == PartPieces(parts, c, Seeded)
  {
    var all, sure := PartPieces(parts, c, Possible), PartPieces(parts, c, Sure);
    var found := PartPieces(parts, c, Seeded);
    forall i | 0 <= i < |parts|
      ensures pieces[i].ps <= all[i].ps && pieces[i].min == all[i].min && pieces[i].max == all[i].max
      ensures SafeInners(parts) ==> sure[i].ps <= pieces[i].ps
      ensures FixedInners(parts) ==> pieces[i] == found[i]
    {
      assert StepFor(node.steps[i], parts[i]) && GivenBy(node, i, pieces[i], c);
      GivenPart(node, i, pieces[i], parts[i], c);
    }
  }

  lemma SameDispatch(steps: seq<SequenceStep>, parts: seq<Query>, c: Corpus)
    requires StepsFor(steps, parts)
    ensures PerDocument(c, steps) <==> ScansPerDocument(c, parts)
  {
    forall i | 0 <= i < |parts|
      ensures StepBenefits(steps[i]) <==> PartBenefits(PartOf(parts[i]))
    {
      assert StepFor(steps[i], parts[i]);
    }
  }

  lemma {:induction false} SameLabels(a: seq<Step>, b: seq<Step>, cs: seq<nat>, k: nat)
    requires |a| == |b| && k <= |a| && k < |cs| && forall i :: 0 <= i < |a| ==> a[i].capture == b[i].capture
    ensures CapturesOf(a, cs, k) == CapturesOf(b, cs, k)
  {
    if k > 0 {
      SameLabels(a, b, cs, k - 1);
    }
  }

  lemma LabelsFor(steps: seq<SequenceStep>, parts: seq<Query>, cs: seq<nat>)
    requires StepsFor(steps, parts) && |cs| == |steps| + 1
    ensures CapturesOf(EngineSteps(steps), cs, |steps|) == CapturesOf(QuerySteps(parts), cs, |parts|)
  {
    forall i | 0 <= i < |steps|
      ensures EngineSteps(steps)[i].capture == QuerySteps(parts)[i].capture
    {
      assert StepFor(steps[i], parts[i]);
    }
    SameLabels(EngineSteps(steps), QuerySteps(parts), cs, |steps|);
  }

  lemma CutGrows(pieces: seq<Piece>, all: seq<Piece>, lo: nat, hi: nat, cs: seq<nat>)
    requires Smaller(pieces, all) && IsCut(Restrict(pieces, lo, hi), cs)
    ensures IsCut(all, cs)
  {
    forall i | 0 <= i < |all|
      ensures PieceFits(all[i], cs[i], cs[i + 1])
    {
      PieceOutOfRange(pieces, lo, hi, i, cs[i], cs[i + 1]);
    }
  }

  // A hit that a scan may give has the captures of a cut into the query's parts.
  lemma JustifiedIsCutInto(
      h: Hit, steps: seq<SequenceStep>, parts: seq<Query>, pieces: seq<Piece>, all: seq<Piece>, lo: nat, hi: nat)
    requires StepsFor(steps, parts) && |pieces| == |steps| && Smaller(pieces, all)
    requires JustifiedIn(h, steps, pieces, lo, hi)
    ensures CutInto(h, parts, all)
  {
    var inner := Restrict(pieces, lo, hi);
    var cs :| JustifiedBy(EngineSteps(steps), inner, |steps|, h.span.end, ActiveMatch(h.span.start, h.captures), cs);
    CutGrows(pieces, all, lo, hi, cs);
    LabelsFor(steps, parts, cs);
    assert CutBy(h, parts, all, cs);
  }

  lemma FoundInRange(hs: seq<Hit>, steps: seq<SequenceStep>, pieces: seq<Piece>, lo: nat, hi: nat, h: Hit)
    requires Found(hs, steps, pieces, lo, hi) && h in hs
    ensures lo <= h.span.start < h.span.end <= hi
  {
    assert h.span in SpansIn(pieces, lo, hi);
    RangeSound(pieces, lo, hi, h.span);
  }

  ghost predicate Placed(h: Hit, parts: seq<Query>, c: Corpus, lo: nat, hi: nat) {
    lo <= h.span.start < h.span.end <= hi && CutInto(h, parts, PartPieces(parts, c, Possible))
  }

  lemma ScanPlaced(node: PlanNode, parts: seq<Query>, hs: seq<Hit>, c: Corpus, lo: nat, hi: nat)
    requires ValidCorpus(c) && node.SequenceScan? && StepsFor(node.steps, parts) && Scans(node, hs, c, lo, hi)
    ensures forall h :: h in hs ==> Placed(h, parts, c, lo, hi)
  {
    var pieces: seq<Piece> :| PiecesGiven(node, pieces, c) && Found(hs, node.steps, pieces, lo, hi);
    PiecesGivenFor(node, parts, pieces, c);
    forall h | h in hs
      ensures Placed(h, parts, c, lo, hi)
    {
      FoundInRange(hs, node.steps, pieces, lo, hi, h);
      JustifiedIsCutInto(h, node.steps, parts, pieces, PartPieces(parts, c, Possible), lo, hi);
    }
  }

  lemma PlacedDenoted(h: Hit, parts: seq<Query>, c: Corpus, lo: nat, hi: nat)
    requires Placed(h, parts, c, lo, hi) && hi <= c.tokenCount
    requires ScansPerDocument(c, parts) ==> InsideOne(c.spans["document"], h.span)
    ensures h.span in SequenceDenotation(parts, PartPieces(parts, c, Possible), c, Possible)
  {
    var cs :| CutBy(h, parts, PartPieces(parts, c, Possible), cs);
    assert Matches(PartPieces(parts, c, Possible), h.span.start, h.span.end);
    assert h.span == Span(h.span.start, h.span.end);
  }

  // The scans of all documents, put together.
  ghost predicate ScansAll(node: PlanNode, parts: seq<seq<Hit>>, hs: seq<Hit>, c: Corpus)
    requires node.SequenceScan? && PerDocument(c, node.steps)
  {
    DocumentScans(node, parts, c) && hs == Joined(parts, |parts|)
  }

  lemma ByDocument(node: PlanNode, hs: seq<Hit>, c: Corpus) returns (scans: seq<seq<Hit>>)
    requires node.SequenceScan? && PerDocument(c, node.steps) && Yields(node, hs, c)
    ensures ScansAll(node, scans, hs, c)
  {
    scans :| DocumentScans(node, scans, c) && hs == Joined(scans, |scans|);
  }

  lemma DocumentPlaced(node: PlanNode, parts: seq<Query>, scans: seq<seq<Hit>>, hs: seq<Hit>, h: Hit, c: Corpus)
    requires ValidCorpus(c) && node.SequenceScan? && StepsFor(node.steps, parts) && PerDocument(c, node.steps)
    requires ScansAll(node, scans, hs, c) && h in hs
    ensures Placed(h, parts, c, 0, c.tokenCount) && InsideOne(c.spans["document"], h.span)
  {
    var docs := c.spans["document"];
    JoinedMembers(scans, |scans|, h);
    var d :| 0 <= d < |scans| && h in scans[d];
    ScanPlaced(node, parts, scans[d], c, docs[d].start, docs[d].end);
    DocumentInCorpus(c, d);
  }

  lemma HitPlaced(node: PlanNode, parts: seq<Query>, hs: seq<Hit>, h: Hit, c: Corpus)
    requires ValidCorpus(c) && node.SequenceScan? && StepsFor(node.steps, parts) && Yields(node, hs, c) && h in hs
    ensures Placed(h, parts, c, 0, c.tokenCount)
    ensures PerDocument(c, node.steps) ==> InsideOne(c.spans["document"], h.span)
  {
    if PerDocument(c, node.steps) {
      var scans := ByDocument(node, hs, c);
      DocumentPlaced(node, parts, scans, hs, h, c);
    } else {
      ScanPlaced(node, parts, hs, c, 0, c.tokenCount);
    }
  }

  lemma SequenceBelongs(node: PlanNode, q: Query, hs: seq<Hit>, c: Corpus)
    requires ValidCorpus(c) && node.SequenceScan? && IsSequence(q) && StepsFor(node.steps, PartsOf(q))
    requires Yields(node, hs, c)
    ensures Belong(hs, q, c)
  {
    var parts := PartsOf(q);
    SequenceDenotes(q, c, Possible);
    SameDispatch(node.steps, parts, c);
    forall h | h in hs
      ensures h.span in SequenceDenotation(parts, PartPieces(parts, c, Possible), c, Possible) && Cuts(h, q, c)
    {
      HitPlaced(node, parts, hs, h, c);
      SequenceCuts(h, q, c);
      PlacedDenoted(h, parts, c, 0, c.tokenCount);
    }
  }

  lemma MatchesGrow(a: seq<Piece>, b: seq<Piece>, s: nat, e: nat)
    requires Smaller(a, b) && Matches(a, s, e)
    ensures Matches(b, s, e)
  {
    var cs :| IsCut(a, cs) && cs[0] == s && cs[|a|] == e;
    forall i | 0 <= i < |b|
      ensures PieceFits(b[i], cs[i], cs[i + 1])
    {
      assert PieceFits(a[i], cs[i], cs[i + 1]);
    }
    assert IsCut(b, cs);
  }

  lemma SameQuants(pieces: seq<Piece>, parts: seq<Query>, c: Corpus)
    requires Smaller(PartPieces(parts, c, Sure), pieces)
    ensures Quants(PieceQuant, pieces) == Quants(PartQuant, parts)
  {
  }

  lemma ScanCovers(node: PlanNode, parts: seq<Query>, hs: seq<Hit>, c: Corpus, lo: nat, hi: nat, x: Span)
    requires ValidCorpus(c) && node.SequenceScan? && StepsFor(node.steps, parts) && Scans(node, hs, c, lo, hi)
    requires SafeInners(parts) && FirstStepSafe(Quants(PartQuant, parts))
    requires lo <= x.start && x.end <= hi && Matches(PartPieces(parts, c, Sure), x.start, x.end)
    ensures x in SpanSet(hs)
  {
    var pieces: seq<Piece> :| PiecesGiven(node, pieces, c) && Found(hs, node.steps, pieces, lo, hi);
    PiecesGivenFor(node, parts, pieces, c);
    SameQuants(pieces, parts, c);
    MatchesGrow(PartPieces(parts, c, Sure), pieces, x.start, x.end);
    RangeIsLocal(pieces, lo, hi, x.start, x.end);
    assert x == Span(x.start, x.end);
  }

  lemma DocumentCovers(node: PlanNode, parts: seq<Query>, scans: seq<seq<Hit>>, hs: seq<Hit>, x: Span, c: Corpus)
    requires ValidCorpus(c) && node.SequenceScan? && StepsFor(node.steps, parts) && PerDocument(c, node.steps)
    requires ScansAll(node, scans, hs, c) && SafeInners(parts) && FirstStepSafe(Quants(PartQuant, parts))
    requires InsideOne(c.spans["document"], x) && Matches(PartPieces(parts, c, Sure), x.start, x.end)
    ensures x in SpanSet(hs)
  {
    var docs := c.spans["document"];
    var d :| 0 <= d < |docs| && docs[d].start <= x.start < docs[d].end && x.end <= docs[d].end;
    ScanCovers(node, parts, scans[d], c, docs[d].start, docs[d].end, x);
    JoinedSpans(scans, x);
  }

  lemma MatchCovered(node: PlanNode, parts: seq<Query>, hs: seq<Hit>, x: Span, c: Corpus)
    requires ValidCorpus(c) && node.SequenceScan? && StepsFor(node.steps, parts) && Yields(node, hs, c)
    requires SafeInners(parts) && FirstStepSafe(Quants(PartQuant, parts))
    requires x.end <= c.tokenCount && Matches(PartPieces(parts, c, Sure), x.start, x.end)
    requires PerDocument(c, node.steps) ==> InsideOne(c.spans["document"], x)
    ensures x in SpanSet(hs)
  {
    if PerDocument(c, node.steps) {
      var scans := ByDocument(node, hs, c);
      DocumentCovers(node, parts, scans, hs, x, c);
    } else {
      ScanCovers(node, parts, hs, c, 0, c.tokenCount, x);
    }
  }

  lemma SequenceCovers(node: PlanNode, q: Query, hs: seq<Hit>, c: Corpus)
    requires ValidCorpus(c) && node.SequenceScan? && IsSequence(q) && StepsFor(node.steps, PartsOf(q))
    requires Yields(node, hs, c) && SafeQuery(q)
    ensures Cover(hs, q, c)
  {
    var parts := PartsOf(q);
    SequenceDenotes(q, c, Sure);
    SafeParts(q);
    SameDispatch(node.steps, parts, c);
    forall x | x in SequenceDenotation(parts, PartPieces(parts, c, Sure), c, Sure)
      ensures x in SpanSet(hs)
    {
      MatchCovered(node, parts, hs, x, c);
    }
  }

  lemma ScanEquals(node: PlanNode, parts: seq<Query>, hs: seq<Hit>, c: Corpus, lo: nat, hi: nat, x: Span)
    requires ValidCorpus(c) && node.SequenceScan? && StepsFor(node.steps, parts) && Scans(node, hs, c, lo, hi)
    requires FixedInners(parts)
    ensures x in SpanSet(hs) <==> x.start < x.end <= hi && Explored(PartPieces(parts, c, Seeded), lo, x.start, x.end)
  {
    var pieces: seq<Piece> :| PiecesGiven(node, pieces, c) && Found(hs, node.steps, pieces, lo, hi);
    PiecesGivenFor(node, parts, pieces, c);
    ExploredInRange(pieces, lo, hi, x.start, x.end);
    assert x == Span(x.start, x.end);
  }

  lemma DocumentsEqual(node: PlanNode, parts: seq<Query>, scans: seq<seq<Hit>>, hs: seq<Hit>, x: Span, c: Corpus)
    requires ValidCorpus(c) && node.SequenceScan? && StepsFor(node.steps, parts) && PerDocument(c, node.steps)
    requires ScansAll(node, scans, hs, c) && FixedInners(parts)
    ensures x in SpanSet(hs) <==>
      x.start < x.end && exists d :: InDocument(c.spans["document"], d, PartPieces(parts, c, Seeded), x.start, x.end)
  {
    var docs, pieces := c.spans["document"], PartPieces(parts, c, Seeded);
    JoinedSpans(scans, x);
    forall d | 0 <= d < |docs|
      ensures x in SpanSet(scans[d]) <==> x.start < x.end && InDocument(docs, d, pieces, x.start, x.end)
    {
      ScanEquals(node, parts, scans[d], c, docs[d].start, docs[d].end, x);
    }
  }

  lemma ScansEqual(node: PlanNode, parts: seq<Query>, hs: seq<Hit>, x: Span, c: Corpus)
    requires ValidCorpus(c) && node.SequenceScan? && StepsFor(node.steps, parts) && Yields(node, hs, c)
    requires FixedInners(parts)
    ensures x in SpanSet(hs) <==> x in SequenceDenotation(parts, PartPieces(parts, c, Seeded), c, Seeded)
  {
    SameDispatch(node.steps, parts, c);
    ReportedSpan(parts, PartPieces(parts, c, Seeded), c, x);
    if PerDocument(c, node.steps) {
      var scans := ByDocument(node, hs, c);
      DocumentsEqual(node, parts, scans, hs, x, c);
    } else {
      ScanEquals(node, parts, hs, c, 0, c.tokenCount, x);
    }
  }

  lemma ReportedSpan(parts: seq<Query>, pieces: seq<Piece>, c: Corpus, x: Span)
    requires ValidCorpus(c)
    ensures x in SequenceDenotation(parts, pieces, c, Seeded) <==>
      x.start < x.end <= c.tokenCount && ExploredIn(parts, pieces, c, x.start, x.end)
    ensures ScansPerDocument(c, parts) && ExploredIn(parts, pieces, c, x.start, x.end) ==> x.end <= c.tokenCount
  {
    assert x == Span(x.start, x.end);
    if ScansPerDocument(c, parts) && ExploredIn(parts, pieces, c, x.start, x.end) {
      var d :| InDocument(c.spans["document"], d, pieces, x.start, x.end);
      DocumentInCorpus(c, d);
    }
  }

  lemma SequenceEquals(node: PlanNode, q: Query, hs: seq<Hit>, c: Corpus)
    requires ValidCorpus(c) && node.SequenceScan? && IsSequence(q) && StepsFor(node.steps, PartsOf(q))
    requires Yields(node, hs, c) && AllFixed(q)
    ensures Equals(hs, q, c)
  {
    SequenceDenotes(q, c, Seeded);
    FixedParts(q);
    forall x
      ensures x in SpanSet(hs) <==> x in Reported(q, c).value
    {
      ScansEqual(node, PartsOf(q), hs, x, c);
    }
  }

  // A planned sequence of any parts implements the declarative denotation by cut points.
  lemma SequenceImplements(steps: seq<SequenceStep>, q: Query)
    requires IsSequence(q) && StepsFor(steps, PartsOf(q))
    ensures PlanFor(SequenceScan(steps), q)
  {
    var node := SequenceScan(steps);
    forall c | ValidCorpus(c)
      ensures Faithful(node, q, c)
    {
      SequenceDenotes(q, c, Possible);
      SequenceDenotes(q, c, Sure);
      SequenceDenotes(q, c, Seeded);
      forall hs | Yields(node, hs, c)
        ensures Fulfils(hs, q, c)
      {
        SequenceBelongs(node, q, hs, c);
        if SafeQuery(q) {
          SequenceCovers(node, q, hs, c);
        }
        if AllFixed(q) {
          SequenceEquals(node, q, hs, c);
        }
      }
    }
  }

  // ---------------------------------------------------------------------------------
  // Alternations.

  ghost predicate FaithfulEach(nodes: seq<PlanNode>, qs: seq<Query>, c: Corpus) {
    |nodes| == |qs| && forall i :: 0 <= i < |nodes| ==> Faithful(nodes[i], qs[i], c)
  }

  ghost function PositionsOfAll(ds: seq<Option<set<Span>>>): set<nat> {
    set i, p | 0 <= i < |ds| && p in PositionsOf(ds[i]) :: p
  }

  lemma AnyIncluded(rs: seq<seq<Hit>>, ds: seq<Option<set<Span>>>)
    requires |rs| == |ds| && forall i :: 0 <= i < |rs| ==> ds[i].Some?
    requires forall i :: 0 <= i < |rs| ==> SpanSet(rs[i]) <= ds[i].value
    ensures AnyOf(rs) <= PositionsOfAll(ds)
  {
    forall i | 0 <= i < |rs|
      ensures HitStarts(rs[i]) <= PositionsOf(ds[i])
    {
      StartsIncluded(SpanSet(rs[i]), ds[i].value);
    }
  }

  lemma AllIncluded(rs: seq<seq<Hit>>, ds: seq<Option<set<Span>>>)
    requires |rs| == |ds| && forall i :: 0 <= i < |rs| ==> ds[i].Some?
    requires forall i :: 0 <= i < |rs| ==> ds[i].value <= SpanSet(rs[i])
    ensures PositionsOfAll(ds) <= AnyOf(rs)
  {
    forall i | 0 <= i < |rs|
      ensures PositionsOf(ds[i]) <= HitStarts(rs[i])
    {
      StartsIncluded(ds[i].value, SpanSet(rs[i]));
    }
  }

  lemma AlternationAt(nodes: seq<PlanNode>, q: Query, rs: seq<seq<Hit>>, hs: seq<Hit>, c: Corpus)
    requires q.Or? && FaithfulEach(nodes, q.alternatives, c) && YieldEvery(nodes, rs, c) && Tokens(hs, AnyOf(rs))
    requires forall i :: 0 <= i < |nodes| ==> Meaning(nodes[i], c).Some?
    ensures Fulfils(hs, q, c)
  {
    var all, sure := DenotedEach(q.alternatives, c, Possible), DenotedEach(q.alternatives, c, Sure);
    var found := DenotedEach(q.alternatives, c, Seeded);
    forall i | 0 <= i < |nodes|
      ensures all[i].Some? && sure[i].Some? && found[i].Some? && SpanSet(rs[i]) <= all[i].value
      ensures SafeQuery(q) ==> sure[i].value <= SpanSet(rs[i])
      ensures AllFixed(q) ==> SpanSet(rs[i]) == found[i].value
    {
      SpansBetween(nodes[i], q.alternatives[i], rs[i], c);
    }
    AlternationDenotes(q, c, Possible);
    AlternationDenotes(q, c, Sure);
    AlternationDenotes(q, c, Seeded);
    AnyIncluded(rs, all);
    assert Denotation(q, c) == Some(Singletons(PositionsOfAll(all)));
    if SafeQuery(q) {
      AllIncluded(rs, sure);
      assert Assured(q, c) == Some(Singletons(PositionsOfAll(sure)));
    }
    if AllFixed(q) {
      AnyIncluded(rs, found);
      AllIncluded(rs, found);
      assert Reported(q, c) == Some(Singletons(PositionsOfAll(found)));
    }
  }

  lemma AlternationFails(nodes: seq<PlanNode>, q: Query, c: Corpus)
    requires q.Or? && FaithfulEach(nodes, q.alternatives, c)
    ensures FailsAlike(Union(nodes), q, c)
  {
    var all, sure := DenotedEach(q.alternatives, c, Possible), DenotedEach(q.alternatives, c, Sure);
    var found := DenotedEach(q.alternatives, c, Seeded);
    AlternationDenotes(q, c, Possible);
    AlternationDenotes(q, c, Sure);
    AlternationDenotes(q, c, Seeded);
    assert forall i :: 0 <= i < |nodes| ==>
      FailsAlike(nodes[i], q.alternatives[i], c) &&
      (Meaning(nodes[i], c).None? <==> all[i].None?) && (Meaning(nodes[i], c).None? <==> sure[i].None?) &&
      (Meaning(nodes[i], c).None? <==> found[i].None?);
  }

  lemma AlternationFaithful(nodes: seq<PlanNode>, q: Query, c: Corpus)
    requires q.Or? && FaithfulEach(nodes, q.alternatives, c)
    ensures Faithful(Union(nodes), q, c)
  {
    var node := Union(nodes);
    AlternationFails(nodes, q, c);
    if Meaning(node, c).Some? {
      forall hs | Yields(node, hs, c)
        ensures Fulfils(hs, q, c)
      {
        var rs := UnionParts(node, hs, c);
        AlternationAt(nodes, q, rs, hs, c);
      }
    }
  }

  lemma AlternationImplements(nodes: seq<PlanNode>, q: Query)
    requires q.Or? && |nodes| == |q.alternatives|
    requires forall i :: 0 <= i < |nodes| ==> Realizes(nodes[i], q.alternatives[i])
    ensures PlanFor(Union(nodes), q)
  {
    forall c | ValidCorpus(c)
      ensures Faithful(Union(nodes), q, c)
    {
      AlternationFaithful(nodes, q, c);
    }
  }

  // ---------------------------------------------------------------------------------
  // Filters and projection.

  predicate Wraps(node: PlanNode, inner: PlanNode, q: Query) {
    match q
    case Within(_, layer) => node == FilterBySpan(inner, layer)
    case WithinComponent(_, names) => node == FilterByComponent(inner, names)
    case WithinDocument(_, names) => node == FilterByDocument(inner, names)
    case Project(_, alignment) => node == ProjectAlignment(inner, alignment)
    case _ => false
  }

  ghost predicate Passes(x: Span, q: Query, c: Corpus) {
    match q
    case Within(_, layer) => layer in c.spans ==> InsideOne(c.spans[layer], x)
    case WithinComponent(_, names) => InComponents(c, x, names)
    case WithinDocument(_, names) => InDocuments(c, x, names)
    case _ => true
  }

  lemma FilterDenotes(q: Query, c: Corpus, side: Side)
    requires q.Within? || q.WithinComponent? || q.WithinDocument?
    ensures Denoted(q, c, side).Some? <==> Denoted(q.inner, c, side).Some?
    ensures Denoted(q, c, side).Some? ==>
      forall x :: x in Denoted(q, c, side).value <==> x in Denoted(q.inner, c, side).value && Passes(x, q, c)
  {
  }

  lemma FilterKeeps(node: PlanNode, inner: PlanNode, q: Query, h: Hit, c: Corpus)
    requires Wraps(node, inner, q) && !q.Project?
    ensures IsFilter(node) && (KeepOf(node, c)(h) <==> Passes(h.span, q, c))
  {
  }

  lemma FilteredBelongs(inner: PlanNode, node: PlanNode, q: Query, hs: seq<Hit>, a: seq<Hit>, c: Corpus)
    requires Wraps(node, inner, q) && !q.Project? && Belong(a, q.inner, c) && Kept(hs, a, KeepOf(node, c))
    ensures Belong(hs, q, c)
  {
    FilterDenotes(q, c, Possible);
    forall h | h in hs
      ensures h.span in Denotation(q, c).value && Cuts(h, q, c)
    {
      FilterKeeps(node, inner, q, h, c);
    }
  }

  lemma FilteredCovers(inner: PlanNode, node: PlanNode, q: Query, hs: seq<Hit>, a: seq<Hit>, c: Corpus)
    requires Wraps(node, inner, q) && !q.Project? && Cover(a, q.inner, c) && Kept(hs, a, KeepOf(node, c))
    ensures Cover(hs, q, c)
  {
    FilterDenotes(q, c, Sure);
    forall x | x in Assured(q, c).value
      ensures x in SpanSet(hs)
    {
      assert x in SpanSet(a);
      var h :| h in a && h.span == x;
      FilterKeeps(node, inner, q, h, c);
      assert h in hs;
    }
  }

  lemma FilteredEquals(inner: PlanNode, node: PlanNode, q: Query, hs: seq<Hit>, a: seq<Hit>, c: Corpus)
    requires Wraps(node, inner, q) && !q.Project? && Equals(a, q.inner, c) && Kept(hs, a, KeepOf(node, c))
    ensures Equals(hs, q, c)
  {
    FilterDenotes(q, c, Seeded);
    forall x
      ensures x in SpanSet(hs) <==> x in Reported(q, c).value
    {
      if x in SpanSet(hs) {
        var h :| h in hs && h.span == x;
        FilterKeeps(node, inner, q, h, c);
      }
      if x in Reported(q, c).value {
        assert x in SpanSet(a);
        var h :| h in a && h.span == x;
        FilterKeeps(node, inner, q, h, c);
        assert h in hs;
      }
    }
  }

  lemma FilterFails(inner: PlanNode, node: PlanNode, q: Query, c: Corpus)
    requires Wraps(node, inner, q) && !q.Project?
    ensures Meaning(node, c).Some? <==> Meaning(inner, c).Some?
  {
  }

  lemma FilterAt(inner: PlanNode, node: PlanNode, q: Query, hs: seq<Hit>, a: seq<Hit>, c: Corpus)
    requires Wraps(node, inner, q) && !q.Project? && Faithful(inner, q.inner, c) && Meaning(inner, c).Some?
    requires Yields(inner, a, c) && Kept(hs, a, KeepOf(node, c))
    ensures Fulfils(hs, q, c)
  {
    assert Fulfils(a, q.inner, c);
    FilteredBelongs(inner, node, q, hs, a, c);
    if SafeQuery(q) {
      assert Cover(a, q.inner, c);
      FilteredCovers(inner, node, q, hs, a, c);
    }
    if AllFixed(q) {
      assert Equals(a, q.inner, c);
      FilteredEquals(inner, node, q, hs, a, c);
    }
  }

  lemma FilterYields(inner: PlanNode, node: PlanNode, q: Query, hs: seq<Hit>, c: Corpus)
    requires Wraps(node, inner, q) && !q.Project? && Faithful(inner, q.inner, c) && Meaning(inner, c).Some?
    requires Yields(node, hs, c)
    ensures Fulfils(hs, q, c)
  {
    var a := FilterPart(node, hs, c);
    FilterAt(inner, node, q, hs, a, c);
  }

  lemma FilterFailsAlike(inner: PlanNode, node: PlanNode, q: Query, c: Corpus)
    requires Wraps(node, inner, q) && !q.Project? && FailsAlike(inner, q.inner, c)
    ensures FailsAlike(node, q, c)
  {
    FilterDenotes(q, c, Possible);
    FilterDenotes(q, c, Sure);
    FilterDenotes(q, c, Seeded);
    FilterFails(inner, node, q, c);
  }

  lemma FilterFaithful(inner: PlanNode, node: PlanNode, q: Query, c: Corpus)
    requires Wraps(node, inner, q) && !q.Project? && Faithful(inner, q.inner, c)
    ensures Faithful(node, q, c)
  {
    FilterFailsAlike(inner, node, q, c);
    FilterFails(inner, node, q, c);
    if Meaning(node, c).Some? {
      forall hs | Yields(node, hs, c)
        ensures Fulfils(hs, q, c)
      {
        FilterYields(inner, node, q, hs, c);
      }
    }
  }

  lemma ProjectedSpans(q: Query, hs: seq<Hit>, a: seq<Hit>, c: Corpus)
    requires q.Project? && Denotation(q, c).Some? && Assured(q, c).Some? && Reported(q, c).Some?
    requires Projected(hs, a, c, q.alignment)
    ensures SpanSet(a) <= Denotation(q.inner, c).value ==> Belong(hs, q, c)
    ensures Assured(q.inner, c).value <= SpanSet(a) ==> Cover(hs, q, c)
    ensures SpanSet(a) == Reported(q.inner, c).value ==> Equals(hs, q, c)
  {
    if SpanSet(a) <= Denotation(q.inner, c).value {
      assert SpanSet(hs) <= Denotation(q, c).value;
    }
    if Assured(q.inner, c).value <= SpanSet(a) {
      assert Assured(q, c).value <= SpanSet(hs);
    }
  }

  lemma ProjectAt(inner: PlanNode, node: PlanNode, q: Query, hs: seq<Hit>, c: Corpus)
    requires Wraps(node, inner, q) && q.Project? && Faithful(inner, q.inner, c) && Meaning(node, c).Some?
    requires Yields(node, hs, c)
    ensures Fulfils(hs, q, c)
  {
    var a :| Yields(inner, a, c) && Projected(hs, a, c, q.alignment);
    SpansBetween(inner, q.inner, a, c);
    ProjectedSpans(q, hs, a, c);
  }

  lemma ProjectFaithful(inner: PlanNode, node: PlanNode, q: Query, c: Corpus)
    requires Wraps(node, inner, q) && q.Project? && Faithful(inner, q.inner, c)
    ensures Faithful(node, q, c)
  {
    if Meaning(node, c).Some? {
      forall hs | Yields(node, hs, c)
        ensures Fulfils(hs, q, c)
      {
        ProjectAt(inner, node, q, hs, c);
      }
    }
  }

  // Filters and projection keep what the inner plan achieves.
  lemma WrapImplements(inner: PlanNode, node: PlanNode, q: Query)
    requires Wraps(node, inner, q) && PlanFor(inner, q.inner)
    ensures PlanFor(node, q)
  {
    forall c | ValidCorpus(c)
      ensures Faithful(node, q, c)
    {
      assert Faithful(inner, q.inner, c);
      if q.Project? {
        ProjectFaithful(inner, node, q, c);
      } else {
        FilterFaithful(inner, node, q, c);
      }
    }
  }

  // ---------------------------------------------------------------------------------
  // Constraints.

  lemma ConstrainedBelongs(q: Query, hs: seq<Hit>, a: seq<Hit>, c: Corpus)
    requires q.Constrained? && Belong(a, q.inner, c) && Kept(hs, a, Meeting(c, q.constraints))
    ensures Belong(hs, q, c)
  {
    forall h | h in hs
      ensures h.span in Denotation(q, c).value && Cuts(h, q, c)
    {
      assert h in a && SatisfiesAll(c, h, q.constraints);
      assert Meets(h.span, q.inner, q.constraints, c, Possible);
    }
  }

  lemma ConstrainedCovers(q: Query, hs: seq<Hit>, a: seq<Hit>, c: Corpus)
    requires q.Constrained? && Belong(a, q.inner, c) && Cover(a, q.inner, c)
    requires Kept(hs, a, Meeting(c, q.constraints))
    ensures Cover(hs, q, c)
  {
    forall x | x in Assured(q, c).value
      ensures x in SpanSet(hs)
    {
      assert x in Assured(q.inner, c).value && Meets(x, q.inner, q.constraints, c, Sure);
      assert x in SpanSet(a);
      var h :| h in a && h.span == x;
      assert h in hs;
    }
  }

  lemma ConstrainedEquals(q: Query, hs: seq<Hit>, a: seq<Hit>, c: Corpus)
    requires q.Constrained? && Belong(a, q.inner, c) && Equals(a, q.inner, c) && LabelsFixed(q.inner, q.constraints)
    requires Kept(hs, a, Meeting(c, q.constraints))
    ensures Equals(hs, q, c)
  {
    forall x
      ensures x in SpanSet(hs) <==> x in Reported(q, c).value
    {
      if x in SpanSet(hs) {
        var h :| h in hs && h.span == x;
        assert h in a && SatisfiesAll(c, h, q.constraints);
        assert Meets(x, q.inner, q.constraints, c, Seeded);
      }
      if x in Reported(q, c).value {
        assert Meets(x, q.inner, q.constraints, c, Seeded);
        var g: Hit :| g.span == x && Cuts(g, q.inner, c) && SatisfiesAll(c, g, q.constraints);
        assert x in SpanSet(a);
        var h :| h in a && h.span == x;
        CutsVerdict(q.inner, q.constraints, g, h, c);
        assert h in hs;
      }
    }
  }

  lemma ConstraintAt(inner: PlanNode, node: PlanNode, q: Query, hs: seq<Hit>, c: Corpus)
    requires q.Constrained? && node == GlobalConstraintFilter(inner, q.constraints)
    requires Faithful(inner, q.inner, c) && Meaning(inner, c).Some? && Yields(node, hs, c)
    ensures Fulfils(hs, q, c)
  {
    var a := FilterPart(node, hs, c);
    assert Fulfils(a, q.inner, c);
    ConstrainedBelongs(q, hs, a, c);
    if SafeQuery(q) {
      assert Cover(a, q.inner, c);
      ConstrainedCovers(q, hs, a, c);
    }
    if AllFixed(q) {
      ConstrainedEquals(q, hs, a, c);
    }
  }

  // A constraint filter reports only spans some of whose captures satisfy the constraints, and
  // every span of which all do.
  lemma ConstraintImplements(inner: PlanNode, q: Query)
    requires q.Constrained? && Realizes(inner, q.inner)
    ensures PlanFor(GlobalConstraintFilter(inner, q.constraints), q)
  {
    var node := GlobalConstraintFilter(inner, q.constraints);
    forall c | ValidCorpus(c)
      ensures Faithful(node, q, c)
    {
      assert Faithful(inner, q.inner, c);
      if Meaning(node, c).Some? {
        forall hs | Yields(node, hs, c)
          ensures Fulfils(hs, q, c)
        {
          ConstraintAt(inner, node, q, hs, c);
        }
      }
    }
  }
}
