// crates/montre-query/src/executor.rs: count_node and count_sequence. The count is computed
// without building hits, with shortcuts for scans, and always on the unlabelled path.
module Count {
  import opened Core
  import opened Ast
  import opened Runs
  import opened Sequence
  import opened Engine
  import opened Labelled
  import opened Plan
  import opened Hits
  import opened Outcomes
  import opened Executor
  import opened Execute
  import opened Determined
  import opened Verdict
  import opened Witness
  import opened Filtered

  lemma {:induction false} CountSingletons(ps: set<nat>)
    ensures |Singletons(ps)| == |ps|
  {
    if ps != {} {
      var p :| p in ps;
      CountSingletons(ps - {p});
      assert Singletons(ps) == Singletons(ps - {p}) + {Singleton(p)};
      assert Singleton(p) !in Singletons(ps - {p});
    } else {
      assert Singletons(ps) == {};
    }
  }

  lemma {:induction false} CountRange(lo: nat, hi: nat)
    requires lo <= hi
    ensures |RangeSet(lo, hi)| == hi - lo
    decreases hi - lo
  {
    if lo < hi {
      CountRange(lo + 1, hi);
    }
  }

  lemma CountDifference<T>(all: set<T>, part: set<T>)
    requires part <= all
    ensures |all - part| == |all| - |part|
  {
    assert all == (all - part) + part;
  }

  lemma MeaningOfComplement(node: PlanNode, c: Corpus)
    requires node.Difference? && node.base.ScanAll? && node.subtract.ScanLiteral?
    ensures Meaning(node, c) ==
      Some(Singletons(RangeSet(0, c.tokenCount) - Bitmap(c, node.subtract.layer, node.subtract.value)))
  {
    var all, bitmap := RangeSet(0, c.tokenCount), Bitmap(c, node.subtract.layer, node.subtract.value);
    assert Meaning(node.base, c) == Some(Singletons(all));
    assert Meaning(node.subtract, c) == Some(Singletons(bitmap));
    StartsOfSingletons(bitmap);
    assert Meaning(node, c).value == Singletons(all - bitmap);
  }

  // Every position minus the ones of a literal.
  lemma CountComplement(node: PlanNode, c: Corpus)
    requires ValidCorpus(c) && node.Difference? && node.base.ScanAll? && node.subtract.ScanLiteral?
    ensures var bitmap := Bitmap(c, node.subtract.layer, node.subtract.value);
      && |bitmap| <= c.tokenCount
      && Meaning(node, c).Some? && |Meaning(node, c).value| == c.tokenCount - |bitmap|
  {
    var all, bitmap := RangeSet(0, c.tokenCount), Bitmap(c, node.subtract.layer, node.subtract.value);
    assert bitmap <= all;
    MeaningOfComplement(node, c);
    CountSingletons(all - bitmap);
    CountRange(0, c.tokenCount);
    CountDifference(all, bitmap);
  }

  // What counting promises, for every plan: an error exactly when executing is one, and
  // otherwise the number of hits of an outcome.
  ghost predicate CountReturns(r: Result<nat>, node: PlanNode, c: Corpus) {
    (r.Ok? <==> Meaning(node, c).Some?) && (r.Ok? ==> exists hs :: Yields(node, hs, c) && r.value == |hs|)
  }

  lemma {:induction false} PureIsOneSpans(node: PlanNode)
    requires Pure(node)
    ensures OneSpans(node)
    decreases node
  {
    match node {
      case Intersect(nodes) => forall i | 0 <= i < |nodes| ensures OneSpans(nodes[i]) { PureIsOneSpans(nodes[i]); }
      case Union(nodes) => forall i | 0 <= i < |nodes| ensures OneSpans(nodes[i]) { PureIsOneSpans(nodes[i]); }
      case Difference(base, subtract) => PureIsOneSpans(base); PureIsOneSpans(subtract);
      case FilterBySpan(inner, _) => PureIsOneSpans(inner);
      case FilterByComponent(inner, _) => PureIsOneSpans(inner);
      case FilterByDocument(inner, _) => PureIsOneSpans(inner);
      case ProjectAlignment(inner, _) => PureIsOneSpans(inner);
      case SequenceScan(steps) =>
        forall i | 0 <= i < |steps| ensures OneSpans(steps[i].node) { PureIsOneSpans(steps[i].node); }
      case _ =>
    }
  }

  // The count that execute_count reports is the number of hits that execute returns: always
  // where no constraint filter can depend on the captures that were kept.
  lemma CountIsHitCount(n: Result<nat>, hits: Result<seq<Hit>>, node: PlanNode, c: Corpus)
    requires CountReturns(n, node, c) && Returns(hits, node, c)
    ensures n.Ok? <==> hits.Ok?
    ensures n.Ok? && OneSpans(node) ==> n.value == |hits.value|
  {
    if n.Ok? && OneSpans(node) {
      var hs :| Yields(node, hs, c) && n.value == |hs|;
      OneOutcome(node, c);
      DeliversCount(hs, SpanSet(hs));
      DeliversCount(hits.value, SpanSet(hs));
    }
  }

  // Without any constraint filter it is the number of spans of the meaning.
  lemma CountIsMeaning(n: Result<nat>, node: PlanNode, c: Corpus)
    requires CountReturns(n, node, c) && Pure(node)
    ensures n == if Meaning(node, c).None? then Err else Ok(|Meaning(node, c).value|)
  {
    if n.Ok? {
      var hs :| Yields(node, hs, c) && n.value == |hs|;
      PureYields(node, hs, c);
      DeliversCount(hs, Meaning(node, c).value);
    }
  }

  // Under a constraint filter it is the number of spans whose captures satisfy the constraints,
  // where the quantifiers fix what these read.
  lemma CountIsKept(n: Result<nat>, inner: PlanNode, gs: seq<GlobalConstraint>, c: Corpus)
    requires CountReturns(n, GlobalConstraintFilter(inner, gs), c) && Pure(inner) && OneVerdict(inner, gs)
    ensures n == if Meaning(inner, c).None? then Err else Ok(|KeptMeaning(inner, gs, c)|)
  {
    if n.Ok? {
      var hs :| Yields(GlobalConstraintFilter(inner, gs), hs, c) && n.value == |hs|;
      ConstrainedExact(inner, gs, hs, c);
    }
  }

  // Whatever constraints read no more than these do, and on every corpus, a count and a list of
  // hits of the filtered plan agree.
  ghost predicate AlwaysCounts(steps: seq<SequenceStep>, gs: seq<GlobalConstraint>) {
    forall more, c, n: nat, hits: seq<Hit> ::
      ReadsOnly(more, gs) && ValidCorpus(c) && CountedApart(steps, more, c, n, hits) ==> n == |hits|
  }

  ghost predicate EveryCountAgrees(steps: seq<SequenceStep>) {
    forall gs, c, n: nat, hits: seq<Hit> ::
      Declared(EngineSteps(steps), gs) && ValidCorpus(c) && CountedApart(steps, gs, c, n, hits) ==> n == |hits|
  }

  // A count of the filtered plan, and a list of hits from executing it.
  ghost predicate CountedApart(steps: seq<SequenceStep>, gs: seq<GlobalConstraint>, c: Corpus, n: nat, hits: seq<Hit>) {
    var node := GlobalConstraintFilter(SequenceScan(steps), gs);
    CountReturns(Ok(n), node, c) && Returns(Ok(hits), node, c)
  }

  lemma VaryingCounts(steps: seq<SequenceStep>, gs: seq<GlobalConstraint>, c: Corpus, a: seq<Hit>, b: seq<Hit>)
    requires Varies(steps, gs, c, a, b)
    ensures CountedApart(steps, gs, c, |a|, b)
  {
  }

  lemma FixedCounts(steps: seq<SequenceStep>, gs: seq<GlobalConstraint>, c: Corpus, n: nat, hits: seq<Hit>)
    requires AnyToken(steps) && VerdictFixed(EngineSteps(steps), gs) && CountedApart(steps, gs, c, n, hits)
    ensures n == |hits|
  {
    var node := GlobalConstraintFilter(SequenceScan(steps), gs);
    assert OneVerdict(SequenceScan(steps), gs);
    CountIsHitCount(Ok(n), Ok(hits), node, c);
  }

  // They do if and only if the check on quantifiers, labels and constraints passes.
  lemma {:induction false} CountIffFixed(steps: seq<SequenceStep>, gs: seq<GlobalConstraint>)
    requires AnyToken(steps)
    ensures AlwaysCounts(steps, gs) <==> VerdictFixed(EngineSteps(steps), gs)
  {
    if VerdictFixed(EngineSteps(steps), gs) {
      forall more, c, n: nat, hits: seq<Hit> | ReadsOnly(more, gs) && ValidCorpus(c) &&
        CountedApart(steps, more, c, n, hits)
        ensures n == |hits|
      {
        FixedForLess(EngineSteps(steps), gs, more);
        FixedCounts(steps, more, c, n, hits);
      }
    } else {
      var more, c, a, b := FilterVaries(steps, gs);
      VaryingCounts(steps, more, c, a, b);
    }
  }

  lemma {:induction false} EveryCountIff(steps: seq<SequenceStep>)
    requires AnyToken(steps)
    ensures EveryCountAgrees(steps) <==> EveryVerdictFixed(EngineSteps(steps))
  {
    if EveryVerdictFixed(EngineSteps(steps)) {
      forall gs, c, n: nat, hits: seq<Hit> | Declared(EngineSteps(steps), gs) && ValidCorpus(c) &&
        CountedApart(steps, gs, c, n, hits)
        ensures n == |hits|
      {
        EveryFixed(EngineSteps(steps), gs);
        FixedCounts(steps, gs, c, n, hits);
      }
    } else {
      var gs, c, a, b := SomeFilterVaries(steps);
      VaryingCounts(steps, gs, c, a, b);
    }
  }

  // Where they do not, a count and a list of hits of the same plan on the same corpus can differ.
  lemma CountCanDiffer() returns (n: Result<nat>, hits: Result<seq<Hit>>)
    ensures var node := GlobalConstraintFilter(SequenceScan(TwoParts()), SameWord());
      && CountReturns(n, node, ThreeWords()) && Returns(hits, node, ThreeWords())
      && n.Ok? && hits.Ok? && n.value == |hits.value| + 1
  {
    var a, b := ResultDependsOnWitness();
    n, hits := Ok(|a|), Ok(b);
  }

  lemma TokensCounted(node: PlanNode, ps: set<nat>, c: Corpus)
    requires forall hs :: Tokens(hs, ps) ==> Yields(node, hs, c)
    ensures exists hs :: Yields(node, hs, c) && |ps| == |hs|
  {
    var hs := TokensExist(ps);
    CountSingletons(ps);
    DeliversCount(hs, Singletons(ps));
    assert Yields(node, hs, c);
  }

  lemma ComplementCounted(node: PlanNode, c: Corpus)
    requires ValidCorpus(c) && node.Difference? && node.base.ScanAll? && node.subtract.ScanLiteral?
    ensures var bitmap := Bitmap(c, node.subtract.layer, node.subtract.value);
      |bitmap| <= c.tokenCount && exists hs :: Yields(node, hs, c) && c.tokenCount - |bitmap| == |hs|
  {
    var all := TokensExist(RangeSet(0, c.tokenCount));
    var some := TokensExist(Bitmap(c, node.subtract.layer, node.subtract.value));
    var hs := DifferenceYields(node, all, some, c);
    PureYields(node, hs, c);
    CountComplement(node, c);
    DeliversCount(hs, Meaning(node, c).value);
  }

  method CountNode(node: PlanNode, c: Corpus) returns (r: Result<nat>)
    requires ValidCorpus(c)
    ensures CountReturns(r, node, c)
  {
    match node {
      case ScanLiteral(layer, value) =>
        TokensCounted(node, Bitmap(c, layer, value), c);
        return Ok(|Bitmap(c, layer, value)|);
      case ScanAll =>
        CountRange(0, c.tokenCount);
        TokensCounted(node, RangeSet(0, c.tokenCount), c);
        return Ok(c.tokenCount);
      case ScanRegex(layer, pattern) =>
        var re := c.compile(pattern);
        if re.None? {
          return Err;
        }
        var combined := RegexPositions(c, layer, re.value);
        TokensCounted(node, combined, c);
        return Ok(|combined|);
      case SequenceScan(steps) =>
        var n := CountSequence(node, c);
        return Ok(n);
      case Difference(base, subtract) =>
        if base.ScanAll? && subtract.ScanLiteral? {
          ComplementCounted(node, c);
          return Ok(c.tokenCount - |Bitmap(c, subtract.layer, subtract.value)|);
        }
        r := CountByExecuting(node, c);
      case _ =>
        r := CountByExecuting(node, c);
    }
  }

  method CountByExecuting(node: PlanNode, c: Corpus) returns (r: Result<nat>)
    requires ValidCorpus(c)
    ensures CountReturns(r, node, c)
  {
    var hits := ExecuteNode(node, c);
    if hits.Err? {
      return Err;
    }
    r := Ok(|hits.value|);
  }

  method CountSequence(node: PlanNode, c: Corpus) returns (n: nat)
    requires ValidCorpus(c) && node.SequenceScan?
    ensures exists hs :: Yields(node, hs, c) && n == |hs|
  {
    ghost var hs;
    if PerDocument(c, node.steps) {
      n, hs := CountPerDocument(node, c);
    } else {
      n, hs := CountSequenceInRange(node, c, 0, c.tokenCount);
    }
    assert Yields(node, hs, c);
  }

  method CountPerDocument(node: PlanNode, c: Corpus) returns (n: nat, ghost hs: seq<Hit>)
    requires ValidCorpus(c) && node.SequenceScan? && PerDocument(c, node.steps)
    ensures Yields(node, hs, c) && n == |hs|
  {
    var docs := c.spans["document"];
    n, hs := 0, [];
    ghost var parts: seq<seq<Hit>> := [];
    for d := 0 to |docs|
      invariant |parts| == d && SoFar(node, parts, hs, c) && n == |hs|
    {
      DocumentInCorpus(c, d);
      var m;
      ghost var more;
      m, more := CountSequenceInRange(node, c, docs[d].start, docs[d].end);
      NextDocument(node, parts, hs, more, c);
      n, hs := n + m, hs + more;
      parts := parts + [more];
    }
    DocumentsYield(node, parts, hs, c);
  }

  method CountSequenceInRange(node: PlanNode, c: Corpus, lo: nat, hi: nat) returns (n: nat, ghost hs: seq<Hit>)
    requires ValidCorpus(c) && node.SequenceScan? && hi <= c.tokenCount
    ensures HitsInside(hs, lo, hi) && StrictHits(hs) && Scans(node, hs, c, lo, hi) && n == |hs|
  {
    var runs, pieces := BuildRunIndices(node, c, lo, hi);
    var active := RunUnlabeled(EngineSteps(node.steps), runs, lo, hi, Restrict(pieces, lo, hi));
    n := CountActive(active);
    hs := FoundExists(node.steps, pieces, lo, hi);
    ActiveAreFound(active, pieces, lo, hi);
    DeliversCount(hs, SpansIn(pieces, lo, hi));
    FoundInside(hs, node.steps, pieces, lo, hi);
  }

  lemma ActiveAreFound(active: Active, pieces: seq<Piece>, lo: nat, hi: nat)
    requires forall s: nat, e: nat :: In(active, s, e) <==> Reach(Restrict(pieces, lo, hi), |pieces|, s, e)
    ensures ActiveSpans(active) == SpansIn(pieces, lo, hi)
  {
    forall x: Span
      ensures x in ActiveSpans(active) <==> x in SpansIn(pieces, lo, hi)
    {
      assert x == Span(x.start, x.end);
    }
  }

  lemma FoundInside(hs: seq<Hit>, steps: seq<SequenceStep>, pieces: seq<Piece>, lo: nat, hi: nat)
    requires Found(hs, steps, pieces, lo, hi)
    ensures HitsInside(hs, lo, hi)
  {
    forall h | h in hs
      ensures lo <= h.span.start < h.span.end <= hi
    {
      assert h.span in SpansIn(pieces, lo, hi);
      assert h.span == Span(h.span.start, h.span.end);
      ReachInside(Restrict(pieces, lo, hi), |pieces|, lo, hi);
    }
  }
}
