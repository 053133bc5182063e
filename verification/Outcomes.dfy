// crates/montre-query/src/executor.rs: everything that executing a plan may return. Hash order
// and an unstable sort leave open which captures are kept for a span, and a constraint filter
// looks at these captures, so a plan can have several outcomes; every scan of a sequence step
// may see another one.
module Outcomes {
  import opened Core
  import opened Runs
  import opened Sequence
  import opened Engine
  import opened Labelled
  import opened Ast
  import opened Plan
  import opened Hits
  import opened Constraints

  ghost function HitStarts(hs: seq<Hit>): set<nat> {
    Starts(SpanSet(hs))
  }

  // One-token hits at exactly these positions.
  ghost predicate Tokens(hs: seq<Hit>, ps: set<nat>) {
    Delivers(hs, Singletons(ps)) && forall h :: h in hs ==> h.captures == []
  }

  ghost function CommonOf(rs: seq<seq<Hit>>): set<nat> {
    if rs == [] then {}
    else set p | p in HitStarts(rs[0]) && forall i :: 0 <= i < |rs| ==> p in HitStarts(rs[i])
  }

  ghost function AnyOf(rs: seq<seq<Hit>>): set<nat> {
    set i, p | 0 <= i < |rs| && p in HitStarts(rs[i]) :: p
  }

  ghost predicate Kept(hs: seq<Hit>, from: seq<Hit>, keep: Hit -> bool) {
    forall h :: h in hs <==> h in from && keep(h)
  }

  ghost function InSpans(c: Corpus, layer: string): Hit -> bool {
    (h: Hit) => layer in c.spans ==> InsideOne(c.spans[layer], h.span)
  }

  ghost function InNamed(c: Corpus, components: seq<string>): Hit -> bool {
    (h: Hit) => InComponents(c, h.span, components)
  }

  ghost function InTitled(c: Corpus, documents: seq<string>): Hit -> bool {
    (h: Hit) => InDocuments(c, h.span, documents)
  }

  ghost function Meeting(c: Corpus, gs: seq<GlobalConstraint>): Hit -> bool {
    (h: Hit) => SatisfiesAll(c, h, gs)
  }

  ghost function NotAmong(ps: set<nat>): Hit -> bool {
    (h: Hit) => h.span.start !in ps
  }

  ghost predicate Projected(hs: seq<Hit>, from: seq<Hit>, c: Corpus, alignment: string) {
    && Projection(c, alignment).Some?
    && (forall h :: h in hs ==> h.captures == [])
    && SpanSet(hs) == if HasProjectionLayers(c, Projection(c, alignment).value)
                      then ProjectionImage(ProjectionSetting(c, alignment), SpanSet(from)) else {}
  }

  // The hit comes from a seeded cut inside [lo, hi), with its captures.
  ghost predicate JustifiedIn(h: Hit, steps: seq<SequenceStep>, pieces: seq<Piece>, lo: nat, hi: nat)
    requires |pieces| == |steps|
  {
    Justified(EngineSteps(steps), Restrict(pieces, lo, hi), |steps|, h.span.end, ActiveMatch(h.span.start, h.captures))
  }

  // The hits of a scan of [lo, hi): the seeded matches, each with the captures of a seeded cut.
  ghost predicate Found(hs: seq<Hit>, steps: seq<SequenceStep>, pieces: seq<Piece>, lo: nat, hi: nat) {
    && |pieces| == |steps|
    && Delivers(hs, SpansIn(pieces, lo, hi))
    && forall h :: h in hs ==> JustifiedIn(h, steps, pieces, lo, hi)
  }

  function Joined<T>(parts: seq<seq<T>>, n: nat): seq<T>
    requires n <= |parts|
  {
    if n == 0 then [] else Joined(parts, n - 1) + parts[n - 1]
  }

  ghost predicate Yields(node: PlanNode, hs: seq<Hit>, c: Corpus)
    decreases node, 5
  {
    && StrictHits(hs)
    && match node
       case ScanLiteral(layer, value) => Tokens(hs, Bitmap(c, layer, value))
       case ScanRegex(layer, pattern) => c.compile(pattern).Some? &&
           Tokens(hs, RegexSet(c, layer, c.compile(pattern).value))
       case ScanAll => Tokens(hs, RangeSet(0, c.tokenCount))
       case Intersect(nodes) =>
         exists rs: seq<seq<Hit>> :: |rs| == |nodes| && (forall i :: 0 <= i < |nodes| ==> Yields(nodes[i], rs[i], c)) &&
           Tokens(hs, CommonOf(rs))
       case Union(nodes) =>
         exists rs: seq<seq<Hit>> :: |rs| == |nodes| && (forall i :: 0 <= i < |nodes| ==> Yields(nodes[i], rs[i], c)) &&
           Tokens(hs, AnyOf(rs))
       case Difference(base, subtract) =>
         exists a, b :: Yields(base, a, c) && Yields(subtract, b, c) && Kept(hs, a, NotAmong(HitStarts(b)))
       case FilterBySpan(inner, layer) => exists a :: Yields(inner, a, c) && Kept(hs, a, InSpans(c, layer))
       case FilterByComponent(inner, names) => exists a :: Yields(inner, a, c) && Kept(hs, a, InNamed(c, names))
       case FilterByDocument(inner, names) => exists a :: Yields(inner, a, c) && Kept(hs, a, InTitled(c, names))
       case ProjectAlignment(inner, alignment) => exists a :: Yields(inner, a, c) && Projected(hs, a, c, alignment)
       case SequenceScan(steps) =>
         if PerDocument(c, steps) then exists parts :: DocumentScans(node, parts, c) && hs == Joined(parts, |parts|)
         else Scans(node, hs, c, 0, c.tokenCount)
       case GlobalConstraintFilter(inner, gs) => exists a :: Yields(inner, a, c) && Kept(hs, a, Meeting(c, gs))
  }

  ghost predicate DocumentScans(node: PlanNode, parts: seq<seq<Hit>>, c: Corpus)
    requires node.SequenceScan? && PerDocument(c, node.steps)
    decreases node, 4
  {
    var docs := c.spans["document"];
    |parts| == |docs| && forall d :: 0 <= d < |docs| ==> Scans(node, parts[d], c, docs[d].start, docs[d].end)
  }

  // One scan: every step is given the starts of one outcome of its node, or nothing when the
  // node fails.
  ghost predicate Scans(node: PlanNode, hs: seq<Hit>, c: Corpus, lo: nat, hi: nat)
    requires node.SequenceScan?
    decreases node, 3
  {
    exists pieces: seq<Piece> :: PiecesGiven(node, pieces, c) && Found(hs, node.steps, pieces, lo, hi)
  }

  ghost predicate PiecesGiven(node: PlanNode, pieces: seq<Piece>, c: Corpus)
    requires node.SequenceScan?
    decreases node, 2
  {
    && |pieces| == |node.steps|
    && forall i :: 0 <= i < |pieces| ==> GivenBy(node, i, pieces[i], c)
  }

  ghost predicate GivenBy(node: PlanNode, i: nat, piece: Piece, c: Corpus)
    requires node.SequenceScan? && i < |node.steps|
    decreases node, 1
  {
    && piece.min == node.steps[i].min && piece.max == node.steps[i].max
    && if Meaning(node.steps[i].node, c).None? then piece.ps == {}
       else exists a :: Yields(node.steps[i].node, a, c) && piece.ps == HitStarts(a)
  }

  // What executing a plan promises, for every plan: an error exactly when the meaning is one,
  // and otherwise one of the outcomes.
  ghost predicate Returns(r: Result<seq<Hit>>, node: PlanNode, c: Corpus) {
    (r.Ok? <==> Meaning(node, c).Some?) && (r.Ok? ==> Yields(node, r.value, c))
  }

  // ---------------------------------------------------------------------------------
  // Hits for any set of positions.
  lemma TokensExist(ps: set<nat>) returns (hs: seq<Hit>)
    ensures Tokens(hs, ps) && StrictHits(hs) && HitStarts(hs) == ps
  {
    var sorted := SortedList(ps);
    hs := TokenHits(sorted);
    TokenHitsDeliver(sorted, ps);
    StartsOfSingletons(ps);
  }

  lemma SortedList(ps: set<nat>) returns (r: seq<nat>)
    ensures StrictlySorted(r) && forall p :: p in r <==> p in ps
  {
    r := [];
    if ps != {} {
      var p :| p in ps;
      var rest := SortedList(ps - {p});
      r := InsertSorted(rest, p);
    }
  }

  lemma StartsOfSingletons(ps: set<nat>)
    ensures Starts(Singletons(ps)) == ps
  {
    forall p | p in ps
      ensures p in Starts(Singletons(ps))
    {
      assert Singleton(p) in Singletons(ps);
      assert Singleton(p).start == p;
    }
  }

  // ---------------------------------------------------------------------------------
  // Hits for all spans of a scan, among them a given one.

  lemma SpansAfterInsert(hs: seq<Hit>, h: Hit)
    requires StrictHits(hs) && forall x :: x in hs ==> x.span != h.span
    ensures Delivers(InsertHit(hs, h), SpanSet(hs) + {h.span})
  {
    var r := InsertHit(hs, h);
    assert h in r;
    forall x | x in SpanSet(hs)
      ensures x in SpanSet(r)
    {
      var g :| g in hs && g.span == x;
      assert g in r;
    }
  }

  ghost predicate JustifiedAll(hs: seq<Hit>, steps: seq<SequenceStep>, pieces: seq<Piece>, lo: nat, hi: nat) {
    |pieces| == |steps| && forall h :: h in hs ==> JustifiedIn(h, steps, pieces, lo, hi)
  }

  lemma {:induction false} HitsFor(spans: set<Span>, steps: seq<SequenceStep>, pieces: seq<Piece>, lo: nat, hi: nat)
    returns (hs: seq<Hit>)
    requires |pieces| == |steps| && spans <= SpansIn(pieces, lo, hi)
    ensures Delivers(hs, spans) && JustifiedAll(hs, steps, pieces, lo, hi)
    decreases |spans|
  {
    hs := [];
    assert SpanSet(hs) == {};
    if spans != {} {
      var x :| x in spans;
      var rest := HitsFor(spans - {x}, steps, pieces, lo, hi);
      var h := HitOf(x, steps, pieces, lo, hi);
      forall g | g in rest
        ensures g.span != x
      {
        assert g.span in SpanSet(rest);
      }
      SpansAfterInsert(rest, h);
      hs := InsertHit(rest, h);
      assert SpanSet(rest) + {x} == spans;
    }
  }

  lemma HitOf(x: Span, steps: seq<SequenceStep>, pieces: seq<Piece>, lo: nat, hi: nat) returns (h: Hit)
    requires |pieces| == |steps| && x in SpansIn(pieces, lo, hi)
    ensures h.span == x && JustifiedIn(h, steps, pieces, lo, hi)
  {
    var inner := Restrict(pieces, lo, hi);
    assert x == Span(x.start, x.end);
    assert Reach(inner, |pieces|, x.start, x.end);
    var cs :| Trace(inner, |pieces|, cs) && cs[0] == x.start && cs[|pieces|] == x.end;
    h := Hit(x, CapturesOf(EngineSteps(steps), cs, |steps|));
    assert JustifiedBy(EngineSteps(steps), inner, |steps|, x.end, ActiveMatch(x.start, h.captures), cs);
  }

  lemma FoundExists(steps: seq<SequenceStep>, pieces: seq<Piece>, lo: nat, hi: nat) returns (hs: seq<Hit>)
    requires |pieces| == |steps|
    ensures Found(hs, steps, pieces, lo, hi)
  {
    hs := HitsFor(SpansIn(pieces, lo, hi), steps, pieces, lo, hi);
  }

  // Any justified hit is in some outcome of the scan.
  lemma FoundWith(h: Hit, steps: seq<SequenceStep>, pieces: seq<Piece>, lo: nat, hi: nat) returns (hs: seq<Hit>)
    requires |pieces| == |steps| && h.span in SpansIn(pieces, lo, hi) && JustifiedIn(h, steps, pieces, lo, hi)
    ensures Found(hs, steps, pieces, lo, hi) && h in hs
  {
    var spans := SpansIn(pieces, lo, hi);
    var rest := HitsFor(spans - {h.span}, steps, pieces, lo, hi);
    forall g | g in rest
      ensures g.span != h.span
    {
      assert g.span in SpanSet(rest);
    }
    SpansAfterInsert(rest, h);
    hs := InsertHit(rest, h);
    assert SpanSet(rest) + {h.span} == spans;
  }

  // ---------------------------------------------------------------------------------
  // What an outcome of a node is made of.

  ghost predicate YieldEvery(nodes: seq<PlanNode>, rs: seq<seq<Hit>>, c: Corpus) {
    |rs| == |nodes| && forall i :: 0 <= i < |nodes| ==> Yields(nodes[i], rs[i], c)
  }

  lemma IntersectParts(node: PlanNode, a: seq<Hit>, c: Corpus) returns (rs: seq<seq<Hit>>)
    requires node.Intersect? && Yields(node, a, c)
    ensures YieldEvery(node.nodes, rs, c) && Tokens(a, CommonOf(rs))
  {
    rs :| |rs| == |node.nodes| && (forall i :: 0 <= i < |node.nodes| ==> Yields(node.nodes[i], rs[i], c)) &&
      Tokens(a, CommonOf(rs));
  }

  lemma UnionParts(node: PlanNode, a: seq<Hit>, c: Corpus) returns (rs: seq<seq<Hit>>)
    requires node.Union? && Yields(node, a, c)
    ensures YieldEvery(node.nodes, rs, c) && Tokens(a, AnyOf(rs))
  {
    rs :| |rs| == |node.nodes| && (forall i :: 0 <= i < |node.nodes| ==> Yields(node.nodes[i], rs[i], c)) &&
      Tokens(a, AnyOf(rs));
  }

  // The nodes that keep some hits of one other node.
  predicate IsFilter(node: PlanNode) {
    node.FilterBySpan? || node.FilterByComponent? || node.FilterByDocument? || node.GlobalConstraintFilter?
  }

  ghost function KeepOf(node: PlanNode, c: Corpus): Hit -> bool
    requires IsFilter(node)
  {
    match node
    case FilterBySpan(_, layer) => InSpans(c, layer)
    case FilterByComponent(_, names) => InNamed(c, names)
    case FilterByDocument(_, names) => InTitled(c, names)
    case GlobalConstraintFilter(_, gs) => Meeting(c, gs)
  }

  lemma FilterPart(node: PlanNode, a: seq<Hit>, c: Corpus) returns (x: seq<Hit>)
    requires IsFilter(node) && Yields(node, a, c)
    ensures Yields(node.inner, x, c) && Kept(a, x, KeepOf(node, c)) && StrictHits(a) && StrictHits(x)
  {
    match node {
      case FilterBySpan(inner, layer) => x :| Yields(inner, x, c) && Kept(a, x, InSpans(c, layer));
      case FilterByComponent(inner, names) => x :| Yields(inner, x, c) && Kept(a, x, InNamed(c, names));
      case FilterByDocument(inner, names) => x :| Yields(inner, x, c) && Kept(a, x, InTitled(c, names));
      case GlobalConstraintFilter(inner, gs) => x :| Yields(inner, x, c) && Kept(a, x, Meeting(c, gs));
    }
  }

  lemma DifferenceParts(node: PlanNode, a: seq<Hit>, c: Corpus) returns (x: seq<Hit>, p: seq<Hit>)
    requires node.Difference? && Yields(node, a, c)
    ensures Yields(node.base, x, c) && Yields(node.subtract, p, c) && Kept(a, x, NotAmong(HitStarts(p)))
    ensures StrictHits(a) && StrictHits(x)
  {
    x, p :| Yields(node.base, x, c) && Yields(node.subtract, p, c) && Kept(a, x, NotAmong(HitStarts(p)));
  }

  // ---------------------------------------------------------------------------------
  // Plans without a constraint filter deliver exactly their meaning.

  // A hit with a justified match in a range has genuine captures.
  lemma JustifiedIsGenuine(steps: seq<SequenceStep>, c: Corpus, lo: nat, hi: nat, h: Hit)
    requires JustifiedIn(h, steps, PiecesOf(steps, c), lo, hi)
    ensures Genuine(h, SequenceScan(steps), c)
  {
    var pieces := PiecesOf(steps, c);
    var inner := Restrict(pieces, lo, hi);
    var cs :| JustifiedBy(EngineSteps(steps), inner, |steps|, h.span.end, ActiveMatch(h.span.start, h.captures), cs);
    forall i | 0 <= i < |pieces|
      ensures PieceFits(pieces[i], cs[i], cs[i + 1])
    {
      assert PieceFits(inner[i], cs[i], cs[i + 1]);
      PieceOutOfRange(pieces, lo, hi, i, cs[i], cs[i + 1]);
    }
    assert GenuineCut(steps, c, h, cs);
  }

  ghost predicate AllGenuine(hs: seq<Hit>, node: PlanNode, c: Corpus) {
    forall h :: h in hs ==> Genuine(h, node, c)
  }

  ghost predicate DocumentsFound(parts: seq<seq<Hit>>, steps: seq<SequenceStep>, docs: seq<Span>, pieces: seq<Piece>) {
    |parts| == |docs| && forall d :: 0 <= d < |docs| ==> Found(parts[d], steps, pieces, docs[d].start, docs[d].end)
  }

  lemma {:induction false} JoinedMembers<T>(parts: seq<seq<T>>, n: nat, h: T)
    requires n <= |parts|
    ensures h in Joined(parts, n) <==> exists d :: 0 <= d < n && h in parts[d]
  {
    if n > 0 {
      JoinedMembers(parts, n - 1, h);
      assert h in Joined(parts, n) <==> h in Joined(parts, n - 1) || h in parts[n - 1];
    }
  }

  // The spans of the joined parts.
  lemma JoinedSpans(parts: seq<seq<Hit>>, x: Span)
    ensures x in SpanSet(Joined(parts, |parts|)) <==> exists d :: 0 <= d < |parts| && x in SpanSet(parts[d])
  {
    var all := Joined(parts, |parts|);
    if x in SpanSet(all) {
      var h :| h in all && h.span == x;
      JoinedMembers(parts, |parts|, h);
    }
    if d :| 0 <= d < |parts| && x in SpanSet(parts[d]) {
      var h :| h in parts[d] && h.span == x;
      JoinedMembers(parts, |parts|, h);
      assert h in all;
    }
  }

  lemma JoinedDelivers(parts: seq<seq<Hit>>, steps: seq<SequenceStep>, c: Corpus)
    requires "document" in c.spans && DocumentsFound(parts, steps, c.spans["document"], PiecesOf(steps, c))
    ensures SpanSet(Joined(parts, |parts|)) == PerDocumentSpans(c, PiecesOf(steps, c), |parts|)
    ensures AllGenuine(Joined(parts, |parts|), SequenceScan(steps), c)
  {
    var docs, pieces := c.spans["document"], PiecesOf(steps, c);
    forall x
      ensures x in SpanSet(Joined(parts, |parts|)) <==> x in PerDocumentSpans(c, pieces, |parts|)
    {
      JoinedSpans(parts, x);
      assert forall d :: 0 <= d < |docs| ==> SpanSet(parts[d]) == SpansIn(pieces, docs[d].start, docs[d].end);
    }
    forall h | h in Joined(parts, |parts|)
      ensures Genuine(h, SequenceScan(steps), c)
    {
      JoinedMembers(parts, |parts|, h);
      var d :| 0 <= d < |parts| && h in parts[d];
      JustifiedIsGenuine(steps, c, docs[d].start, docs[d].end, h);
    }
  }

  // Every outcome of every step selects what the step means.
  ghost predicate StepsMean(steps: seq<SequenceStep>, c: Corpus) {
    forall i :: 0 <= i < |steps| ==> MeansAll(steps[i].node, c)
  }

  ghost predicate MeansAll(node: PlanNode, c: Corpus) {
    Meaning(node, c).Some? ==> forall a :: Yields(node, a, c) ==> SpanSet(a) == Meaning(node, c).value
  }

  lemma GivenPieces(node: PlanNode, pieces: seq<Piece>, c: Corpus)
    requires node.SequenceScan? && PiecesGiven(node, pieces, c) && StepsMean(node.steps, c)
    ensures pieces == PiecesOf(node.steps, c)
  {
    forall i | 0 <= i < |pieces|
      ensures pieces[i] == PiecesOf(node.steps, c)[i]
    {
      assert GivenBy(node, i, pieces[i], c);
      assert MeansAll(node.steps[i].node, c);
    }
  }

  lemma ScanFinds(node: PlanNode, hs: seq<Hit>, c: Corpus, lo: nat, hi: nat)
    requires node.SequenceScan? && Scans(node, hs, c, lo, hi) && StepsMean(node.steps, c)
    ensures Found(hs, node.steps, PiecesOf(node.steps, c), lo, hi)
  {
    var pieces: seq<Piece> :| PiecesGiven(node, pieces, c) && Found(hs, node.steps, pieces, lo, hi);
    GivenPieces(node, pieces, c);
  }

  lemma SequenceAnswers(node: PlanNode, hs: seq<Hit>, c: Corpus)
    requires node.SequenceScan? && Yields(node, hs, c) && StepsMean(node.steps, c)
    ensures Answers(Ok(hs), node, c)
  {
    var steps := node.steps;
    MeaningOfSequence(steps, c);
    if PerDocument(c, steps) {
      var docs := c.spans["document"];
      var parts :| DocumentScans(node, parts, c) && hs == Joined(parts, |parts|);
      forall d | 0 <= d < |docs|
        ensures Found(parts[d], steps, PiecesOf(steps, c), docs[d].start, docs[d].end)
      {
        ScanFinds(node, parts[d], c, docs[d].start, docs[d].end);
      }
      JoinedDelivers(parts, steps, c);
    } else {
      ScanFinds(node, hs, c, 0, c.tokenCount);
      forall h | h in hs
        ensures Genuine(h, node, c)
      {
        JustifiedIsGenuine(steps, c, 0, c.tokenCount, h);
      }
    }
  }

  lemma KeptSpans(hs: seq<Hit>, from: seq<Hit>, keep: Hit -> bool, to: set<Span>)
    requires Kept(hs, from, keep) && StrictHits(hs)
    requires forall h :: h in from ==> (keep(h) <==> h.span in to)
    requires to <= SpanSet(from)
    ensures Delivers(hs, to)
  {
    forall x | x in to
      ensures x in SpanSet(hs)
    {
      var h :| h in from && h.span == x;
      assert h in hs;
    }
  }

  lemma FilterAnswers(node: PlanNode, hs: seq<Hit>, inner: PlanNode, from: seq<Hit>, keep: Hit -> bool, c: Corpus)
    requires Answers(Ok(from), inner, c) && Kept(hs, from, keep) && StrictHits(hs)
    requires Meaning(node, c).Some? && Meaning(node, c).value <= Meaning(inner, c).value
    requires forall h :: h in from ==> (keep(h) <==> h.span in Meaning(node, c).value)
    requires forall h :: h in from && Genuine(h, inner, c) ==> Genuine(h, node, c)
    ensures Answers(Ok(hs), node, c)
  {
    KeptSpans(hs, from, keep, Meaning(node, c).value);
  }

  lemma DifferenceAnswers(node: PlanNode, hs: seq<Hit>, a: seq<Hit>, b: seq<Hit>, c: Corpus)
    requires node.Difference? && Answers(Ok(a), node.base, c) && Answers(Ok(b), node.subtract, c)
    requires Kept(hs, a, NotAmong(HitStarts(b))) && StrictHits(hs)
    ensures Answers(Ok(hs), node, c)
  {
    FilterAnswers(node, hs, node.base, a, NotAmong(HitStarts(b)), c);
  }

  lemma GroupAnswers(node: PlanNode, nodes: seq<PlanNode>, rs: seq<seq<Hit>>, hs: seq<Hit>, c: Corpus)
    requires node == Intersect(nodes) || node == Union(nodes)
    requires |rs| == |nodes| && forall i :: 0 <= i < |nodes| ==> Answers(Ok(rs[i]), nodes[i], c)
    requires Tokens(hs, if node.Intersect? then CommonOf(rs) else AnyOf(rs))
    ensures Answers(Ok(hs), node, c)
  {
    forall i | 0 <= i < |nodes|
      ensures Meaning(nodes[i], c).Some? && HitStarts(rs[i]) == Starts(Meaning(nodes[i], c).value)
    {
      assert Answers(Ok(rs[i]), nodes[i], c);
    }
    if node.Intersect? {
      if nodes == [] {
        assert Singletons({}) == {};
      } else {
        var ps := set p | p in Starts(Meaning(nodes[0], c).value)
          && forall i :: 0 <= i < |nodes| ==> p in Starts(Meaning(nodes[i], c).value);
        assert Meaning(node, c) == Some(Singletons(ps));
        assert ps == CommonOf(rs);
      }
    } else {
      var ps := set i, p | 0 <= i < |nodes| && p in Starts(Meaning(nodes[i], c).value) :: p;
      assert Meaning(node, c) == Some(Singletons(ps));
      assert ps == AnyOf(rs);
    }
  }

  lemma ProjectAnswers(node: PlanNode, hs: seq<Hit>, a: seq<Hit>, c: Corpus)
    requires node.ProjectAlignment? && Answers(Ok(a), node.inner, c)
    requires Projected(hs, a, c, node.alignment) && StrictHits(hs)
    ensures Answers(Ok(hs), node, c)
  {
  }

  lemma FilteredAnswers(node: PlanNode, hs: seq<Hit>, from: seq<Hit>, c: Corpus)
    requires IsFilter(node) && !node.GlobalConstraintFilter? && Answers(Ok(from), node.inner, c)
    requires Kept(hs, from, KeepOf(node, c)) && StrictHits(hs)
    ensures Answers(Ok(hs), node, c)
  {
    FilterAnswers(node, hs, node.inner, from, KeepOf(node, c), c);
  }

  // Every outcome of a plan without constraint filters is its meaning, with genuine captures.
  lemma {:induction false} PureYields(node: PlanNode, hs: seq<Hit>, c: Corpus)
    requires Pure(node) && Yields(node, hs, c)
    ensures Answers(Ok(hs), node, c)
    decreases node, 1
  {
    match node {
      case ScanLiteral(_, _) =>
      case ScanRegex(_, _) =>
      case ScanAll =>
      case Intersect(nodes) =>
        var rs := IntersectParts(node, hs, c);
        forall i | 0 <= i < |nodes| ensures Answers(Ok(rs[i]), nodes[i], c) { PureYields(nodes[i], rs[i], c); }
        GroupAnswers(node, nodes, rs, hs, c);
      case Union(nodes) =>
        var rs := UnionParts(node, hs, c);
        forall i | 0 <= i < |nodes| ensures Answers(Ok(rs[i]), nodes[i], c) { PureYields(nodes[i], rs[i], c); }
        GroupAnswers(node, nodes, rs, hs, c);
      case Difference(base, subtract) =>
        var a, b := DifferenceParts(node, hs, c);
        PureYields(base, a, c);
        PureYields(subtract, b, c);
        DifferenceAnswers(node, hs, a, b, c);
      case ProjectAlignment(inner, alignment) =>
        var a :| Yields(inner, a, c) && Projected(hs, a, c, alignment);
        PureYields(inner, a, c);
        ProjectAnswers(node, hs, a, c);
      case SequenceScan(steps) =>
        forall i | 0 <= i < |steps| ensures MeansAll(steps[i].node, c) { StepMeans(node, i, c); }
        SequenceAnswers(node, hs, c);
      case FilterBySpan(inner, _) =>
        var a := FilterPart(node, hs, c);
        PureYields(inner, a, c);
        FilteredAnswers(node, hs, a, c);
      case FilterByComponent(inner, _) =>
        var a := FilterPart(node, hs, c);
        PureYields(inner, a, c);
        FilteredAnswers(node, hs, a, c);
      case FilterByDocument(inner, _) =>
        var a := FilterPart(node, hs, c);
        PureYields(inner, a, c);
        FilteredAnswers(node, hs, a, c);
    }
  }

  lemma {:induction false} StepMeans(node: PlanNode, i: nat, c: Corpus)
    requires Pure(node) && node.SequenceScan? && i < |node.steps|
    ensures MeansAll(node.steps[i].node, c)
    decreases node, 0
  {
    forall a | Yields(node.steps[i].node, a, c)
      ensures Answers(Ok(a), node.steps[i].node, c)
    {
      PureYields(node.steps[i].node, a, c);
    }
  }
}
