// crates/montre-query/src/executor.rs: what follows from keeping one capture witness per
// span. The witness kept depends on hash order and an unstable sort, and a constraint
// filter looks at the captures of that witness only, so its result can depend on the order too.
module Witness {
  import opened Core
  import opened Runs
  import opened Sequence
  import opened Engine
  import opened Labelled
  import opened Determined
  import opened Ast
  import opened Plan
  import opened Hits
  import opened Constraints
  import opened Outcomes
  import opened Verdict

  // ---------------------------------------------------------------------------------
  // Plans with one outcome.

  // The selected spans are determined: below a constraint filter, so is all that it reads.
  predicate OneSpans(node: PlanNode)
    decreases node, 2
  {
    match node
    case Intersect(nodes) => forall i :: 0 <= i < |nodes| ==> OneSpans(nodes[i])
    case Union(nodes) => forall i :: 0 <= i < |nodes| ==> OneSpans(nodes[i])
    case Difference(base, subtract) => OneSpans(base) && OneSpans(subtract)
    case FilterBySpan(inner, _) => OneSpans(inner)
    case FilterByComponent(inner, _) => OneSpans(inner)
    case FilterByDocument(inner, _) => OneSpans(inner)
    case ProjectAlignment(inner, _) => OneSpans(inner)
    case SequenceScan(steps) => forall i :: 0 <= i < |steps| ==> OneSpans(steps[i].node)
    case GlobalConstraintFilter(inner, gs) => OneVerdict(inner, gs)
    case _ => true
  }

  // So are the spans, and what the constraints read of the captures.
  predicate OneVerdict(node: PlanNode, gs: seq<GlobalConstraint>)
    decreases node, 3
  {
    match node
    case Difference(base, subtract) => OneVerdict(base, gs) && OneSpans(subtract)
    case FilterBySpan(inner, _) => OneVerdict(inner, gs)
    case FilterByComponent(inner, _) => OneVerdict(inner, gs)
    case FilterByDocument(inner, _) => OneVerdict(inner, gs)
    case GlobalConstraintFilter(inner, more) => OneVerdict(inner, more) && OneVerdict(inner, gs)
    case SequenceScan(steps) => VerdictFixed(EngineSteps(steps), gs) && forall i :: 0 <= i < |steps| ==>
      OneSpans(steps[i].node)
    case _ => OneSpans(node)
  }

  // So are the captures.
  predicate OneHits(node: PlanNode)
    decreases node, 3
  {
    match node
    case Difference(base, subtract) => OneHits(base) && OneSpans(subtract)
    case FilterBySpan(inner, _) => OneHits(inner)
    case FilterByComponent(inner, _) => OneHits(inner)
    case FilterByDocument(inner, _) => OneHits(inner)
    case GlobalConstraintFilter(inner, _) => OneHits(inner)
    case SequenceScan(steps) => CapturesFixed(EngineSteps(steps)) && forall i :: 0 <= i < |steps| ==>
      OneSpans(steps[i].node)
    case _ => OneSpans(node)
  }

  lemma SameHits(a: seq<Hit>, b: seq<Hit>)
    requires StrictHits(a) && StrictHits(b) && SpanSet(a) == SpanSet(b)
    requires forall g, h :: g in a && h in b && g.span == h.span ==> g == h
    ensures a == b
  {
    DeliversCount(a, SpanSet(a));
    DeliversCount(b, SpanSet(a));
    forall i | 0 <= i < |a|
      ensures a[i] == b[i]
    {
      DeliversUnique(a, b, SpanSet(a), i);
      assert a[i] in a && b[i] in b;
    }
  }

  // All outcomes of the node select the same spans.
  ghost predicate Agrees(node: PlanNode, c: Corpus) {
    forall a, b :: Yields(node, a, c) && Yields(node, b, c) ==> SpanSet(a) == SpanSet(b)
  }

  ghost predicate StepsAgree(steps: seq<SequenceStep>, c: Corpus) {
    forall i :: 0 <= i < |steps| ==> Agrees(steps[i].node, c)
  }

  lemma PiecesAgree(node: PlanNode, p: seq<Piece>, q: seq<Piece>, c: Corpus)
    requires node.SequenceScan? && PiecesGiven(node, p, c) && PiecesGiven(node, q, c) && StepsAgree(node.steps, c)
    ensures p == q
  {
    forall i | 0 <= i < |p|
      ensures p[i] == q[i]
    {
      assert GivenBy(node, i, p[i], c) && GivenBy(node, i, q[i], c);
      assert Agrees(node.steps[i].node, c);
    }
  }

  // The captures of an outcome are those of cuts into permitted lengths.
  ghost predicate CutHits(hs: seq<Hit>, steps: seq<Step>) {
    forall h :: h in hs ==> exists cs :: LabelledBy(h, steps, cs)
  }

  lemma JustifiedIsCut(h: Hit, node: PlanNode, pieces: seq<Piece>, c: Corpus, lo: nat, hi: nat) returns (cs: seq<nat>)
    requires node.SequenceScan? && PiecesGiven(node, pieces, c) && JustifiedIn(h, node.steps, pieces, lo, hi)
    ensures LabelledBy(h, EngineSteps(node.steps), cs)
  {
    var es, inner := EngineSteps(node.steps), Restrict(pieces, lo, hi);
    cs :| JustifiedBy(es, inner, |es|, h.span.end, ActiveMatch(h.span.start, h.captures), cs);
    forall i | 0 <= i < |es|
      ensures inner[i].min == es[i].min && inner[i].max == es[i].max
    {
      assert GivenBy(node, i, pieces[i], c);
    }
    CutHasLengths(es, inner, cs);
  }

  lemma ScanIsCut(node: PlanNode, hs: seq<Hit>, c: Corpus, lo: nat, hi: nat)
    requires node.SequenceScan? && Scans(node, hs, c, lo, hi)
    ensures CutHits(hs, EngineSteps(node.steps))
  {
    var pieces: seq<Piece> :| PiecesGiven(node, pieces, c) && Found(hs, node.steps, pieces, lo, hi);
    forall h | h in hs
      ensures exists cs :: LabelledBy(h, EngineSteps(node.steps), cs)
    {
      var cs := JustifiedIsCut(h, node, pieces, c, lo, hi);
    }
  }

  lemma SequenceIsCut(node: PlanNode, hs: seq<Hit>, c: Corpus)
    requires node.SequenceScan? && Yields(node, hs, c)
    ensures CutHits(hs, EngineSteps(node.steps))
  {
    if PerDocument(c, node.steps) {
      var docs := c.spans["document"];
      var parts :| DocumentScans(node, parts, c) && hs == Joined(parts, |parts|);
      forall h | h in hs
        ensures exists cs :: LabelledBy(h, EngineSteps(node.steps), cs)
      {
        JoinedMembers(parts, |parts|, h);
        var d :| 0 <= d < |parts| && h in parts[d];
        ScanIsCut(node, parts[d], c, docs[d].start, docs[d].end);
      }
    } else {
      ScanIsCut(node, hs, c, 0, c.tokenCount);
    }
  }

  lemma {:induction false} FixedHit(g: Hit, h: Hit, steps: seq<Step>, cs: seq<nat>, ds: seq<nat>)
    requires LabelledBy(g, steps, cs) && LabelledBy(h, steps, ds) && g.span == h.span && CapturesFixed(steps)
    ensures g == h
  {
    FixedMeansSame(steps, cs, ds);
  }

  lemma CutHitsFixed(a: seq<Hit>, b: seq<Hit>, steps: seq<Step>)
    requires CutHits(a, steps) && CutHits(b, steps) && CapturesFixed(steps)
    ensures forall g, h :: g in a && h in b && g.span == h.span ==> g == h
  {
    forall g, h | g in a && h in b && g.span == h.span
      ensures g == h
    {
      var cs :| LabelledBy(g, steps, cs);
      var ds :| LabelledBy(h, steps, ds);
      FixedHit(g, h, steps, cs, ds);
    }
  }

  lemma ScansAgree(node: PlanNode, a: seq<Hit>, b: seq<Hit>, c: Corpus, lo: nat, hi: nat)
    requires node.SequenceScan? && Scans(node, a, c, lo, hi) && Scans(node, b, c, lo, hi) && StepsAgree(node.steps, c)
    ensures SpanSet(a) == SpanSet(b)
  {
    var p: seq<Piece> :| PiecesGiven(node, p, c) && Found(a, node.steps, p, lo, hi);
    var q: seq<Piece> :| PiecesGiven(node, q, c) && Found(b, node.steps, q, lo, hi);
    PiecesAgree(node, p, q, c);
  }

  lemma JoinedAgree(ps: seq<seq<Hit>>, qs: seq<seq<Hit>>)
    requires |ps| == |qs| && forall d :: 0 <= d < |ps| ==> SpanSet(ps[d]) == SpanSet(qs[d])
    ensures SpanSet(Joined(ps, |ps|)) == SpanSet(Joined(qs, |qs|))
  {
    forall x
      ensures x in SpanSet(Joined(ps, |ps|)) <==> x in SpanSet(Joined(qs, |qs|))
    {
      JoinedSpans(ps, x);
      JoinedSpans(qs, x);
    }
  }

  lemma SequenceAgrees(node: PlanNode, a: seq<Hit>, b: seq<Hit>, c: Corpus)
    requires node.SequenceScan? && Yields(node, a, c) && Yields(node, b, c) && StepsAgree(node.steps, c)
    ensures SpanSet(a) == SpanSet(b)
  {
    if PerDocument(c, node.steps) {
      var docs := c.spans["document"];
      var ps :| DocumentScans(node, ps, c) && a == Joined(ps, |ps|);
      var qs :| DocumentScans(node, qs, c) && b == Joined(qs, |qs|);
      forall d | 0 <= d < |docs|
        ensures SpanSet(ps[d]) == SpanSet(qs[d])
      {
        ScansAgree(node, ps[d], qs[d], c, docs[d].start, docs[d].end);
      }
      JoinedAgree(ps, qs);
    } else {
      ScansAgree(node, a, b, c, 0, c.tokenCount);
    }
  }

  lemma KeptAgree(a: seq<Hit>, b: seq<Hit>, x: seq<Hit>, y: seq<Hit>, keep: Hit -> bool)
    requires Kept(a, x, keep) && Kept(b, y, keep) && SpanSet(x) == SpanSet(y)
    requires forall g, h :: g in x && h in y && g.span == h.span ==> (keep(g) <==> keep(h))
    ensures SpanSet(a) == SpanSet(b)
  {
    forall s | s in SpanSet(a)
      ensures s in SpanSet(b)
    {
      var g :| g in a && g.span == s;
      assert s in SpanSet(x);
      var h :| h in y && h.span == s;
      assert h in b;
    }
    forall s | s in SpanSet(b)
      ensures s in SpanSet(a)
    {
      var h :| h in b && h.span == s;
      assert s in SpanSet(y);
      var g :| g in x && g.span == s;
      assert g in a;
    }
  }

  lemma KeptSame(a: seq<Hit>, b: seq<Hit>, x: seq<Hit>, keep: Hit -> bool)
    requires Kept(a, x, keep) && Kept(b, x, keep) && StrictHits(a) && StrictHits(b) && StrictHits(x)
    ensures a == b
  {
    forall g, h | g in a && h in b && g.span == h.span
      ensures g == h
    {
      OneHitPerSpan(x, g, h);
    }
    OneKind(a, b);
    SameHits(a, b);
  }

  lemma OneHitPerSpan(x: seq<Hit>, g: Hit, h: Hit)
    requires StrictHits(x) && g in x && h in x && g.span == h.span
    ensures g == h
  {
    var i :| 0 <= i < |x| && x[i] == g;
    var j :| 0 <= j < |x| && x[j] == h;
    assert !(i < j) && !(j < i);
  }

  lemma OneKind(a: seq<Hit>, b: seq<Hit>)
    requires forall h :: h in a <==> h in b
    ensures SpanSet(a) == SpanSet(b)
  {
  }

  lemma TokensAgree(a: seq<Hit>, b: seq<Hit>, ps: set<nat>)
    requires Tokens(a, ps) && Tokens(b, ps)
    ensures a == b
  {
    SameHits(a, b);
  }

  lemma StartsAgree(rs: seq<seq<Hit>>, ts: seq<seq<Hit>>)
    requires |rs| == |ts| && forall i :: 0 <= i < |rs| ==> SpanSet(rs[i]) == SpanSet(ts[i])
    ensures CommonOf(rs) == CommonOf(ts) && AnyOf(rs) == AnyOf(ts)
  {
    assert forall i :: 0 <= i < |rs| ==> HitStarts(rs[i]) == HitStarts(ts[i]);
  }

  // All outcomes are the same hits.
  ghost predicate SameAlways(node: PlanNode, c: Corpus) {
    forall a, b :: Yields(node, a, c) && Yields(node, b, c) ==> a == b
  }

  ghost predicate AgreeEach(nodes: seq<PlanNode>, c: Corpus) {
    forall i :: 0 <= i < |nodes| ==> Agrees(nodes[i], c)
  }

  lemma EveryAgrees(nodes: seq<PlanNode>, rs: seq<seq<Hit>>, ts: seq<seq<Hit>>, c: Corpus)
    requires YieldEvery(nodes, rs, c) && YieldEvery(nodes, ts, c) && AgreeEach(nodes, c)
    ensures CommonOf(rs) == CommonOf(ts) && AnyOf(rs) == AnyOf(ts)
  {
    forall i | 0 <= i < |nodes|
      ensures SpanSet(rs[i]) == SpanSet(ts[i])
    {
      assert Agrees(nodes[i], c);
    }
    StartsAgree(rs, ts);
  }

  lemma IntersectAgrees(node: PlanNode, c: Corpus)
    requires node.Intersect? && AgreeEach(node.nodes, c)
    ensures SameAlways(node, c) && Agrees(node, c)
  {
    forall a, b | Yields(node, a, c) && Yields(node, b, c)
      ensures a == b
    {
      var rs := IntersectParts(node, a, c);
      var ts := IntersectParts(node, b, c);
      EveryAgrees(node.nodes, rs, ts, c);
      TokensAgree(a, b, CommonOf(rs));
    }
  }

  lemma UnionAgrees(node: PlanNode, c: Corpus)
    requires node.Union? && AgreeEach(node.nodes, c)
    ensures SameAlways(node, c) && Agrees(node, c)
  {
    forall a, b | Yields(node, a, c) && Yields(node, b, c)
      ensures a == b
    {
      var rs := UnionParts(node, a, c);
      var ts := UnionParts(node, b, c);
      EveryAgrees(node.nodes, rs, ts, c);
      TokensAgree(a, b, AnyOf(rs));
    }
  }

  lemma SpansDecide(node: PlanNode, c: Corpus, g: Hit, h: Hit)
    requires IsFilter(node) && !node.GlobalConstraintFilter? && g.span == h.span
    ensures KeepOf(node, c)(g) <==> KeepOf(node, c)(h)
  {
  }

  lemma FilterAgrees(node: PlanNode, c: Corpus)
    requires IsFilter(node) && !node.GlobalConstraintFilter? && Agrees(node.inner, c)
    ensures Agrees(node, c)
  {
    forall a, b | Yields(node, a, c) && Yields(node, b, c)
      ensures SpanSet(a) == SpanSet(b)
    {
      var x := FilterPart(node, a, c);
      var y := FilterPart(node, b, c);
      var keep := KeepOf(node, c);
      forall g, h | g in x && h in y && g.span == h.span ensures keep(g) <==> keep(h) { SpansDecide(node, c, g, h); }
      KeptAgree(a, b, x, y, keep);
    }
  }

  lemma FilterSame(node: PlanNode, c: Corpus)
    requires IsFilter(node) && SameAlways(node.inner, c)
    ensures SameAlways(node, c)
  {
    forall a, b | Yields(node, a, c) && Yields(node, b, c)
      ensures a == b
    {
      var x := FilterPart(node, a, c);
      var y := FilterPart(node, b, c);
      assert x == y;
      KeptSame(a, b, x, KeepOf(node, c));
    }
  }

  lemma DifferenceAgrees(node: PlanNode, c: Corpus)
    requires node.Difference? && Agrees(node.subtract, c) && Agrees(node.base, c)
    ensures Agrees(node, c)
  {
    forall a, b | Yields(node, a, c) && Yields(node, b, c)
      ensures SpanSet(a) == SpanSet(b)
    {
      var x, p := DifferenceParts(node, a, c);
      var y, q := DifferenceParts(node, b, c);
      assert HitStarts(p) == HitStarts(q);
      KeptAgree(a, b, x, y, NotAmong(HitStarts(p)));
    }
  }

  lemma DifferenceSame(node: PlanNode, c: Corpus)
    requires node.Difference? && Agrees(node.subtract, c) && SameAlways(node.base, c)
    ensures SameAlways(node, c)
  {
    forall a, b | Yields(node, a, c) && Yields(node, b, c)
      ensures a == b
    {
      var x, p := DifferenceParts(node, a, c);
      var y, q := DifferenceParts(node, b, c);
      assert x == y && HitStarts(p) == HitStarts(q);
      KeptSame(a, b, x, NotAmong(HitStarts(p)));
    }
  }

  lemma ProjectAgrees(node: PlanNode, c: Corpus)
    requires node.ProjectAlignment? && Agrees(node.inner, c)
    ensures SameAlways(node, c) && Agrees(node, c)
  {
    forall a, b | Yields(node, a, c) && Yields(node, b, c)
      ensures a == b
    {
      var x :| Yields(node.inner, x, c) && Projected(a, x, c, node.alignment);
      var y :| Yields(node.inner, y, c) && Projected(b, y, c, node.alignment);
      SameHits(a, b);
    }
  }

  predicate IsScan(node: PlanNode) {
    node.ScanLiteral? || node.ScanRegex? || node.ScanAll?
  }

  lemma ScanAgrees(node: PlanNode, c: Corpus)
    requires IsScan(node)
    ensures SameAlways(node, c) && Agrees(node, c)
  {
    forall a, b | Yields(node, a, c) && Yields(node, b, c)
      ensures a == b
    {
      match node {
        case ScanLiteral(layer, value) => TokensAgree(a, b, Bitmap(c, layer, value));
        case ScanRegex(layer, pattern) => TokensAgree(a, b, RegexSet(c, layer, c.compile(pattern).value));
        case ScanAll => TokensAgree(a, b, RangeSet(0, c.tokenCount));
      }
    }
  }

  lemma SequencesAgree(node: PlanNode, c: Corpus)
    requires node.SequenceScan? && StepsAgree(node.steps, c)
    ensures Agrees(node, c)
  {
    forall a, b | Yields(node, a, c) && Yields(node, b, c)
      ensures SpanSet(a) == SpanSet(b)
    {
      SequenceAgrees(node, a, b, c);
    }
  }

  lemma SequencesSame(node: PlanNode, c: Corpus)
    requires node.SequenceScan? && StepsAgree(node.steps, c) && CapturesFixed(EngineSteps(node.steps))
    ensures SameAlways(node, c)
  {
    forall a, b | Yields(node, a, c) && Yields(node, b, c)
      ensures a == b
    {
      SequenceAgrees(node, a, b, c);
      SequenceIsCut(node, a, c);
      SequenceIsCut(node, b, c);
      CutHitsFixed(a, b, EngineSteps(node.steps));
      SameHits(a, b);
    }
  }

  // Two hits for one span, in whatever outcomes, get the same verdict.
  ghost predicate VerdictsAgree(node: PlanNode, gs: seq<GlobalConstraint>, c: Corpus) {
    forall a, b :: Yields(node, a, c) && Yields(node, b, c) ==> SameVerdicts(a, b, gs, c)
  }

  ghost predicate SameVerdicts(a: seq<Hit>, b: seq<Hit>, gs: seq<GlobalConstraint>, c: Corpus) {
    forall g, h :: g in a && h in b && g.span == h.span ==> (SatisfiesAll(c, g, gs) <==> SatisfiesAll(c, h, gs))
  }

  lemma SequenceVerdict(node: PlanNode, gs: seq<GlobalConstraint>, c: Corpus)
    requires node.SequenceScan? && VerdictFixed(EngineSteps(node.steps), gs)
    ensures VerdictsAgree(node, gs, c)
  {
    var es := EngineSteps(node.steps);
    forall a, b, g: Hit, h: Hit | Yields(node, a, c) && Yields(node, b, c) && g in a && h in b && g.span == h.span
      ensures SatisfiesAll(c, g, gs) <==> SatisfiesAll(c, h, gs)
    {
      SequenceIsCut(node, a, c);
      SequenceIsCut(node, b, c);
      var cs :| LabelledBy(g, es, cs);
      var ds :| LabelledBy(h, es, ds);
      FixedVerdict(c, g, h, es, cs, ds, gs);
    }
  }

  lemma SameVerdict(node: PlanNode, gs: seq<GlobalConstraint>, c: Corpus)
    requires SameAlways(node, c)
    ensures VerdictsAgree(node, gs, c)
  {
    forall a, b | Yields(node, a, c) && Yields(node, b, c)
      ensures SameVerdicts(a, b, gs, c)
    {
      forall g: Hit, h: Hit | g in a && h in b && g.span == h.span
        ensures g == h
      {
        OneHitPerSpan(a, g, h);
      }
    }
  }

  lemma FilterVerdict(node: PlanNode, gs: seq<GlobalConstraint>, c: Corpus)
    requires IsFilter(node) && VerdictsAgree(node.inner, gs, c)
    ensures VerdictsAgree(node, gs, c)
  {
    forall a, b | Yields(node, a, c) && Yields(node, b, c)
      ensures SameVerdicts(a, b, gs, c)
    {
      var x := FilterPart(node, a, c);
      var y := FilterPart(node, b, c);
      assert SameVerdicts(x, y, gs, c);
    }
  }

  lemma DifferenceVerdict(node: PlanNode, gs: seq<GlobalConstraint>, c: Corpus)
    requires node.Difference? && VerdictsAgree(node.base, gs, c)
    ensures VerdictsAgree(node, gs, c)
  {
    forall a, b | Yields(node, a, c) && Yields(node, b, c)
      ensures SameVerdicts(a, b, gs, c)
    {
      var x, p := DifferenceParts(node, a, c);
      var y, q := DifferenceParts(node, b, c);
      assert SameVerdicts(x, y, gs, c);
    }
  }

  // A filter keeps the spans that one verdict keeps.
  lemma ConstraintAgrees(node: PlanNode, c: Corpus)
    requires node.GlobalConstraintFilter? && Agrees(node.inner, c) && VerdictsAgree(node.inner, node.constraints, c)
    ensures Agrees(node, c)
  {
    forall a, b | Yields(node, a, c) && Yields(node, b, c)
      ensures SpanSet(a) == SpanSet(b)
    {
      var x := FilterPart(node, a, c);
      var y := FilterPart(node, b, c);
      assert SameVerdicts(x, y, node.constraints, c);
      KeptAgree(a, b, x, y, KeepOf(node, c));
    }
  }

  // What the theorem below says of one node.
  ghost predicate Settled(node: PlanNode, c: Corpus) {
    && (OneSpans(node) ==> Agrees(node, c))
    && (OneHits(node) ==> SameAlways(node, c))
    && (forall gs :: OneVerdict(node, gs) ==> Agrees(node, c) && VerdictsAgree(node, gs, c))
  }

  // Of the three, where a node has no captures.
  lemma UncutSettled(node: PlanNode, c: Corpus)
    requires OneSpans(node) ==> Agrees(node, c) && SameAlways(node, c)
    requires node.Intersect? || node.Union? || node.ProjectAlignment? || IsScan(node)
    ensures Settled(node, c)
  {
    forall gs | OneVerdict(node, gs)
      ensures Agrees(node, c) && VerdictsAgree(node, gs, c)
    {
      SameVerdict(node, gs, c);
    }
  }

  lemma GroupSettled(node: PlanNode, nodes: seq<PlanNode>, c: Corpus)
    requires node == Intersect(nodes) || node == Union(nodes)
    requires forall i :: 0 <= i < |nodes| ==> Settled(nodes[i], c)
    ensures Settled(node, c)
  {
    if OneSpans(node) {
      assert AgreeEach(nodes, c);
      if node.Intersect? {
        IntersectAgrees(node, c);
      } else {
        UnionAgrees(node, c);
      }
    }
    UncutSettled(node, c);
  }

  lemma DifferenceSettled(node: PlanNode, c: Corpus)
    requires node.Difference? && Settled(node.base, c) && Settled(node.subtract, c)
    ensures Settled(node, c)
  {
    if OneSpans(node.subtract) {
      if Agrees(node.base, c) {
        DifferenceAgrees(node, c);
      }
      if OneHits(node.base) {
        DifferenceSame(node, c);
      }
      forall gs | OneVerdict(node, gs)
        ensures Agrees(node, c) && VerdictsAgree(node, gs, c)
      {
        DifferenceVerdict(node, gs, c);
      }
    }
  }

  lemma SpanFilterVerdict(node: PlanNode, gs: seq<GlobalConstraint>, c: Corpus)
    requires IsFilter(node) && !node.GlobalConstraintFilter? && Settled(node.inner, c) && OneVerdict(node, gs)
    ensures Agrees(node.inner, c) && VerdictsAgree(node.inner, gs, c)
  {
    assert OneVerdict(node.inner, gs);
  }

  lemma SpanFilterSettled(node: PlanNode, c: Corpus)
    requires IsFilter(node) && !node.GlobalConstraintFilter? && Settled(node.inner, c)
    ensures Settled(node, c)
  {
    if Agrees(node.inner, c) {
      FilterAgrees(node, c);
    }
    if OneHits(node.inner) {
      FilterSame(node, c);
    }
    forall gs | OneVerdict(node, gs)
      ensures Agrees(node, c) && VerdictsAgree(node, gs, c)
    {
      SpanFilterVerdict(node, gs, c);
      FilterAgrees(node, c);
      FilterVerdict(node, gs, c);
    }
  }

  lemma ConstraintVerdicts(node: PlanNode, gs: seq<GlobalConstraint>, c: Corpus)
    requires node.GlobalConstraintFilter? && Settled(node.inner, c) && OneVerdict(node, gs)
    ensures Agrees(node, c) && VerdictsAgree(node, gs, c)
  {
    assert VerdictsAgree(node.inner, node.constraints, c) && VerdictsAgree(node.inner, gs, c);
    ConstraintAgrees(node, c);
    FilterVerdict(node, gs, c);
  }

  lemma ConstraintSpans(node: PlanNode, c: Corpus)
    requires node.GlobalConstraintFilter? && Settled(node.inner, c) && OneSpans(node)
    ensures Agrees(node, c)
  {
    assert OneVerdict(node.inner, node.constraints);
    ConstraintAgrees(node, c);
  }

  lemma ConstraintSettled(node: PlanNode, c: Corpus)
    requires node.GlobalConstraintFilter? && Settled(node.inner, c)
    ensures Settled(node, c)
  {
    if OneSpans(node) {
      ConstraintSpans(node, c);
    }
    if OneHits(node) {
      FilterSame(node, c);
    }
    forall gs | OneVerdict(node, gs)
      ensures Agrees(node, c) && VerdictsAgree(node, gs, c)
    {
      ConstraintVerdicts(node, gs, c);
    }
  }

  lemma SequenceSettled(node: PlanNode, c: Corpus)
    requires node.SequenceScan? && forall i :: 0 <= i < |node.steps| ==> Settled(node.steps[i].node, c)
    ensures Settled(node, c)
  {
    if OneSpans(node) {
      assert StepsAgree(node.steps, c);
      SequencesAgree(node, c);
      if OneHits(node) {
        SequencesSame(node, c);
      }
      forall gs | OneVerdict(node, gs)
        ensures Agrees(node, c) && VerdictsAgree(node, gs, c)
      {
        SequenceVerdict(node, gs, c);
      }
    }
  }

  lemma ProjectSettled(node: PlanNode, c: Corpus)
    requires node.ProjectAlignment? && Settled(node.inner, c)
    ensures Settled(node, c)
  {
    if OneSpans(node.inner) {
      ProjectAgrees(node, c);
    }
    UncutSettled(node, c);
  }

  lemma ScanSettled(node: PlanNode, c: Corpus)
    requires IsScan(node)
    ensures Settled(node, c)
  {
    ScanAgrees(node, c);
    UncutSettled(node, c);
  }

  lemma {:induction false} EachSettled(node: PlanNode, c: Corpus)
    ensures Settled(node, c)
    decreases node
  {
    match node {
      case Intersect(nodes) =>
        forall i | 0 <= i < |nodes| ensures Settled(nodes[i], c) { EachSettled(nodes[i], c); }
        GroupSettled(node, nodes, c);
      case Union(nodes) =>
        forall i | 0 <= i < |nodes| ensures Settled(nodes[i], c) { EachSettled(nodes[i], c); }
        GroupSettled(node, nodes, c);
      case Difference(base, subtract) =>
        EachSettled(base, c);
        EachSettled(subtract, c);
        DifferenceSettled(node, c);
      case ProjectAlignment(inner, _) =>
        EachSettled(inner, c);
        ProjectSettled(node, c);
      case SequenceScan(steps) =>
        forall i | 0 <= i < |steps| ensures Settled(steps[i].node, c) { EachSettled(steps[i].node, c); }
        SequenceSettled(node, c);
      case GlobalConstraintFilter(inner, _) =>
        EachSettled(inner, c);
        ConstraintSettled(node, c);
      case FilterBySpan(inner, _) =>
        EachSettled(inner, c);
        SpanFilterSettled(node, c);
      case FilterByComponent(inner, _) =>
        EachSettled(inner, c);
        SpanFilterSettled(node, c);
      case FilterByDocument(inner, _) =>
        EachSettled(inner, c);
        SpanFilterSettled(node, c);
      case _ => ScanSettled(node, c);
    }
  }

  // Where the quantifiers below every constraint filter fix what it reads, executing a plan gives
  // one set of spans, whatever was kept; where they fix all captures, one list of hits.
  lemma OneOutcome(node: PlanNode, c: Corpus)
    ensures OneSpans(node) ==> Agrees(node, c)
    ensures OneHits(node) ==> SameAlways(node, c)
    ensures forall gs :: OneVerdict(node, gs) ==> Agrees(GlobalConstraintFilter(node, gs), c)
  {
    EachSettled(node, c);
    forall gs | OneVerdict(node, gs)
      ensures Agrees(GlobalConstraintFilter(node, gs), c)
    {
      ConstraintAgrees(GlobalConstraintFilter(node, gs), c);
    }
  }

  // ---------------------------------------------------------------------------------
  // Constraint filters over plans without one: which hits may and which must survive.

  ghost predicate MustKeep(s: Span, inner: PlanNode, gs: seq<GlobalConstraint>, c: Corpus) {
    forall h: Hit :: h.span == s && Genuine(h, inner, c) ==> SatisfiesAll(c, h, gs)
  }

  ghost predicate MayKeep(s: Span, inner: PlanNode, gs: seq<GlobalConstraint>, c: Corpus) {
    exists h: Hit :: h.span == s && Genuine(h, inner, c) && SatisfiesAll(c, h, gs)
  }

  // Every reported hit satisfies the constraints with captures of a genuine cut, and a
  // selected span is reported when all its genuine captures satisfy them.
  lemma ConstrainedBounds(inner: PlanNode, gs: seq<GlobalConstraint>, hs: seq<Hit>, c: Corpus)
    requires Pure(inner) && Meaning(inner, c).Some? && Yields(GlobalConstraintFilter(inner, gs), hs, c)
    ensures forall h :: h in hs ==> h.span in Meaning(inner, c).value && Genuine(h, inner, c) && SatisfiesAll(c, h, gs)
    ensures forall s :: s in Meaning(inner, c).value && MustKeep(s, inner, gs, c) ==> s in SpanSet(hs)
  {
    var x := FilterPart(GlobalConstraintFilter(inner, gs), hs, c);
    PureYields(inner, x, c);
    forall s | s in Meaning(inner, c).value && MustKeep(s, inner, gs, c)
      ensures s in SpanSet(hs)
    {
      var h :| h in x && h.span == s;
      assert h in hs;
    }
  }

  // Where the quantifiers fix what is read, all genuine captures of a span get the same verdict.
  lemma {:induction false} GenuineVerdict(node: PlanNode, gs: seq<GlobalConstraint>, g: Hit, h: Hit, c: Corpus)
    requires OneVerdict(node, gs) && Genuine(g, node, c) && Genuine(h, node, c) && g.span == h.span
    ensures SatisfiesAll(c, g, gs) <==> SatisfiesAll(c, h, gs)
    decreases node
  {
    match node {
      case SequenceScan(steps) =>
        var cs :| GenuineCut(steps, c, g, cs);
        var ds :| GenuineCut(steps, c, h, ds);
        CutHasLengths(EngineSteps(steps), PiecesOf(steps, c), cs);
        CutHasLengths(EngineSteps(steps), PiecesOf(steps, c), ds);
        FixedVerdict(c, g, h, EngineSteps(steps), cs, ds, gs);
      case Difference(base, _) => GenuineVerdict(base, gs, g, h, c);
      case FilterBySpan(inner, _) => GenuineVerdict(inner, gs, g, h, c);
      case FilterByComponent(inner, _) => GenuineVerdict(inner, gs, g, h, c);
      case FilterByDocument(inner, _) => GenuineVerdict(inner, gs, g, h, c);
      case GlobalConstraintFilter(inner, _) => GenuineVerdict(inner, gs, g, h, c);
      case _ => assert g == h;
    }
  }

  ghost function KeptMeaning(inner: PlanNode, gs: seq<GlobalConstraint>, c: Corpus): set<Span>
    requires Meaning(inner, c).Some?
  {
    set s | s in Meaning(inner, c).value && MayKeep(s, inner, gs, c)
  }

  // So a constraint filter selects exactly the spans whose captures satisfy the constraints, and
  // the count is their number.
  lemma ConstrainedExact(inner: PlanNode, gs: seq<GlobalConstraint>, hs: seq<Hit>, c: Corpus)
    requires Pure(inner) && OneVerdict(inner, gs) && Meaning(inner, c).Some? &&
      Yields(GlobalConstraintFilter(inner, gs), hs, c)
    ensures SpanSet(hs) == KeptMeaning(inner, gs, c)
    ensures |hs| == |KeptMeaning(inner, gs, c)|
  {
    ConstrainedBounds(inner, gs, hs, c);
    forall s | s in SpanSet(hs)
      ensures s in KeptMeaning(inner, gs, c)
    {
      var h :| h in hs && h.span == s;
      assert MayKeep(s, inner, gs, c);
    }
    forall s | s in KeptMeaning(inner, gs, c)
      ensures s in SpanSet(hs)
    {
      var g: Hit :| g.span == s && Genuine(g, inner, c) && SatisfiesAll(c, g, gs);
      forall h: Hit | h.span == s && Genuine(h, inner, c)
        ensures SatisfiesAll(c, h, gs)
      {
        GenuineVerdict(inner, gs, g, h, c);
      }
      assert MustKeep(s, inner, gs, c);
    }
    DeliversCount(hs, SpanSet(hs));
  }
}
