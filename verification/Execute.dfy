// crates/montre-query/src/executor.rs: the recursive entry points execute_node, count_node,
// execute_sequence, build_run_indices and get_matching_positions_in_range.
module Execute {
  import opened Core
  import opened Runs
  import opened Sequence
  import opened Engine
  import opened Labelled
  import opened Align
  import opened Ast
  import opened Plan
  import opened Hits
  import opened Outcomes
  import opened Executor

  ghost predicate AnyFails(nodes: seq<PlanNode>, c: Corpus) {
    exists i :: 0 <= i < |nodes| && Meaning(nodes[i], c).None?
  }

  // execute_node
  method ExecuteNode(node: PlanNode, c: Corpus) returns (r: Result<seq<Hit>>)
    requires ValidCorpus(c)
    ensures Returns(r, node, c)
    decreases node, 5
  {
    match node {
      case ScanLiteral(layer, value) =>
        var hs := PositionsToHits(Bitmap(c, layer, value));
        return Ok(hs);
      case ScanRegex(layer, pattern) =>
        var re := c.compile(pattern);
        if re.None? {
          return Err;
        }
        var ps := RegexPositions(c, layer, re.value);
        var hs := PositionsToHits(ps);
        return Ok(hs);
      case ScanAll =>
        var hs := PositionsToHits(RangeSet(0, c.tokenCount));
        return Ok(hs);
      case Intersect(nodes) =>
        r := ExecuteIntersect(node, c);
      case Union(nodes) =>
        r := ExecuteUnion(node, c);
      case Difference(base, subtract) =>
        r := ExecuteDifference(node, c);
      case FilterBySpan(inner, layer) =>
        var hits := ExecuteNode(inner, c);
        r := FilterSpans(hits, layer, c);
      case FilterByComponent(inner, names) =>
        var hits := ExecuteNode(inner, c);
        r := FilterComponents(hits, names, c);
      case FilterByDocument(inner, names) =>
        var hits := ExecuteNode(inner, c);
        r := FilterDocuments(hits, names, c);
      case ProjectAlignment(inner, alignment) =>
        var hits := ExecuteNode(inner, c);
        r := ProjectHits(hits, alignment, c);
      case SequenceScan(steps) =>
        var hits := ExecuteSequence(node, c);
        r := Ok(hits);
      case GlobalConstraintFilter(inner, constraints) =>
        var hits := ExecuteNode(inner, c);
        r := FilterConstraints(hits, constraints, c);
    }
  }

  // Outcomes of the first nodes.
  ghost predicate YieldEach(nodes: seq<PlanNode>, rs: seq<seq<Hit>>, c: Corpus) {
    |rs| == |nodes| && forall i :: 0 <= i < |nodes| ==> Meaning(nodes[i], c).Some? && Yields(nodes[i], rs[i], c)
  }

  lemma YieldNext(nodes: seq<PlanNode>, rs: seq<seq<Hit>>, i: nat, hs: seq<Hit>, c: Corpus)
    requires i < |nodes| && YieldEach(nodes[..i], rs, c)
    requires Meaning(nodes[i], c).Some? && Yields(nodes[i], hs, c)
    ensures YieldEach(nodes[..i + 1], rs + [hs], c)
    ensures AnyOf(rs + [hs]) == AnyOf(rs) + HitStarts(hs)
    ensures rs != [] ==> CommonOf(rs + [hs]) == CommonOf(rs) * HitStarts(hs)
    ensures rs == [] ==> CommonOf(rs + [hs]) == HitStarts(hs)
  {
    assert nodes[..i + 1] == nodes[..i] + [nodes[i]];
    var more := rs + [hs];
    assert forall j :: 0 <= j < |rs| ==> more[j] == rs[j];
    assert more[|rs|] == hs;
    forall p
      ensures p in AnyOf(more) <==> p in AnyOf(rs) + HitStarts(hs)
    {
      if p in AnyOf(rs) {
        var j :| 0 <= j < |rs| && p in HitStarts(rs[j]);
        assert p in HitStarts(more[j]);
      }
    }
    CommonNext(rs, hs);
  }

  lemma CommonNext(rs: seq<seq<Hit>>, hs: seq<Hit>)
    ensures CommonOf(rs + [hs]) == if rs == [] then HitStarts(hs) else CommonOf(rs) * HitStarts(hs)
  {
    var more := rs + [hs];
    assert forall j :: 0 <= j < |rs| ==> more[j] == rs[j];
    assert more[|rs|] == hs;
    forall p
      ensures p in CommonOf(more) <==> p in HitStarts(hs) && (rs != [] ==> p in CommonOf(rs))
    {
      if p in CommonOf(more) && rs != [] {
        assert p in HitStarts(more[0]);
        forall j | 0 <= j < |rs|
          ensures p in HitStarts(rs[j])
        {
          assert p in HitStarts(more[j]);
        }
      }
    }
  }

  method ExecuteIntersect(node: PlanNode, c: Corpus) returns (r: Result<seq<Hit>>)
    requires ValidCorpus(c) && node.Intersect?
    ensures Returns(r, node, c)
    decreases node, 4
  {
    if node.nodes == [] {
      NoHits();
      assert Tokens([], CommonOf([]));
      return Ok([]);
    }
    var first := ExecuteNode(node.nodes[0], c);
    if first.Err? {
      return Err;
    }
    var positions := StartsOf(first.value);
    ghost var rs := [first.value];
    assert CommonOf(rs) == positions;
    for i := 1 to |node.nodes|
      invariant YieldEach(node.nodes[..i], rs, c) && rs != []
      invariant positions == CommonOf(rs)
    {
      var hits := ExecuteNode(node.nodes[i], c);
      if hits.Err? {
        return Err;
      }
      var more := StartsOf(hits.value);
      YieldNext(node.nodes, rs, i, hits.value, c);
      positions := positions * more;
      rs := rs + [hits.value];
    }
    assert node.nodes[..|node.nodes|] == node.nodes;
    var hs := PositionsToHits(positions);
    r := Ok(hs);
    assert Tokens(hs, CommonOf(rs));
  }

  lemma NoHits()
    ensures Tokens([], {})
  {
    assert SpanSet([]) == {};
    assert Singletons({}) == {};
  }

  method ExecuteUnion(node: PlanNode, c: Corpus) returns (r: Result<seq<Hit>>)
    requires ValidCorpus(c) && node.Union?
    ensures Returns(r, node, c)
    decreases node, 4
  {
    var positions: set<nat> := {};
    ghost var rs := [];
    for i := 0 to |node.nodes|
      invariant YieldEach(node.nodes[..i], rs, c)
      invariant positions == AnyOf(rs)
    {
      var hits := ExecuteNode(node.nodes[i], c);
      if hits.Err? {
        return Err;
      }
      var more := StartsOf(hits.value);
      YieldNext(node.nodes, rs, i, hits.value, c);
      positions := positions + more;
      rs := rs + [hits.value];
    }
    assert node.nodes[..|node.nodes|] == node.nodes;
    var hs := PositionsToHits(positions);
    r := Ok(hs);
    assert Tokens(hs, AnyOf(rs));
  }

  method ExecuteDifference(node: PlanNode, c: Corpus) returns (r: Result<seq<Hit>>)
    requires ValidCorpus(c) && node.Difference?
    ensures Returns(r, node, c)
    decreases node, 4
  {
    var base := ExecuteNode(node.base, c);
    if base.Err? {
      return Err;
    }
    var subtract := ExecuteNode(node.subtract, c);
    if subtract.Err? {
      return Err;
    }
    var excluded := StartsOf(subtract.value);
    var kept := Filter(base.value, (h: Hit) => h.span.start !in excluded);
    r := Ok(kept);
    assert Kept(kept, base.value, NotAmong(HitStarts(subtract.value)));
  }

  // execute_sequence: one scan, or one scan per document when the steps call for it.
  method ExecuteSequence(node: PlanNode, c: Corpus) returns (hs: seq<Hit>)
    requires ValidCorpus(c) && node.SequenceScan?
    ensures Yields(node, hs, c)
    decreases node, 4
  {
    if PerDocument(c, node.steps) {
      hs := ExecutePerDocument(node, c);
    } else {
      hs := ExecuteSequenceInRange(node, c, 0, c.tokenCount);
    }
  }

  lemma AppendSorted(hs: seq<Hit>, more: seq<Hit>, docs: seq<Span>, d: nat)
    requires Ordered(docs) && d < |docs|
    requires StrictHits(hs) && StrictHits(more) && HitsInside(more, docs[d].start, docs[d].end)
    requires forall h :: h in hs ==> h.span.start < docs[d].start
    ensures StrictHits(hs + more)
    ensures forall h :: h in hs + more ==> h.span.start < docs[d].end
  {
  }

  lemma {:induction false} JoinedPrefix<T>(parts: seq<seq<T>>, last: seq<T>, n: nat)
    requires n <= |parts|
    ensures Joined(parts + [last], n) == Joined(parts, n)
  {
    if n > 0 {
      JoinedPrefix(parts, last, n - 1);
    }
  }

  // The hits of the first documents, scan by scan.
  ghost predicate SoFar(node: PlanNode, parts: seq<seq<Hit>>, hs: seq<Hit>, c: Corpus)
    requires node.SequenceScan? && "document" in c.spans
  {
    var docs := c.spans["document"];
    && |parts| <= |docs| && StrictHits(hs) && hs == Joined(parts, |parts|)
    && (|parts| < |docs| ==> forall h :: h in hs ==> h.span.start < docs[|parts|].start)
    && ScansEach(node, parts, docs, c)
  }

  ghost predicate ScansEach(node: PlanNode, parts: seq<seq<Hit>>, docs: seq<Span>, c: Corpus)
    requires node.SequenceScan? && |parts| <= |docs|
  {
    forall d :: 0 <= d < |parts| ==> Scans(node, parts[d], c, docs[d].start, docs[d].end)
  }

  lemma ScansNext(node: PlanNode, parts: seq<seq<Hit>>, more: seq<Hit>, docs: seq<Span>, c: Corpus)
    requires node.SequenceScan? && |parts| < |docs| && ScansEach(node, parts, docs, c)
    requires Scans(node, more, c, docs[|parts|].start, docs[|parts|].end)
    ensures ScansEach(node, parts + [more], docs, c)
  {
    var all := parts + [more];
    forall d | 0 <= d < |all|
      ensures Scans(node, all[d], c, docs[d].start, docs[d].end)
    {
      assert all[d] == if d < |parts| then parts[d] else more;
    }
  }

  lemma NextDocument(node: PlanNode, parts: seq<seq<Hit>>, hs: seq<Hit>, more: seq<Hit>, c: Corpus)
    requires ValidCorpus(c) && node.SequenceScan? && "document" in c.spans && |parts| < |c.spans["document"]|
    requires SoFar(node, parts, hs, c)
    requires var d := c.spans["document"][|parts|];
      StrictHits(more) && HitsInside(more, d.start, d.end) && Scans(node, more, c, d.start, d.end)
    ensures SoFar(node, parts + [more], hs + more, c)
  {
    DocumentInCorpus(c, |parts|);
    AppendSorted(hs, more, c.spans["document"], |parts|);
    JoinedPrefix(parts, more, |parts|);
    ScansNext(node, parts, more, c.spans["document"], c);
  }

  method ExecutePerDocument(node: PlanNode, c: Corpus) returns (hs: seq<Hit>)
    requires ValidCorpus(c) && node.SequenceScan? && PerDocument(c, node.steps)
    ensures Yields(node, hs, c)
    decreases node, 3
  {
    var docs := c.spans["document"];
    hs := [];
    ghost var parts: seq<seq<Hit>> := [];
    for d := 0 to |docs|
      invariant |parts| == d && SoFar(node, parts, hs, c)
    {
      DocumentInCorpus(c, d);
      var more := ExecuteSequenceInRange(node, c, docs[d].start, docs[d].end);
      NextDocument(node, parts, hs, more, c);
      hs := hs + more;
      parts := parts + [more];
    }
    DocumentsYield(node, parts, hs, c);
  }

  lemma DocumentsYield(node: PlanNode, parts: seq<seq<Hit>>, hs: seq<Hit>, c: Corpus)
    requires node.SequenceScan? && PerDocument(c, node.steps)
    requires |parts| == |c.spans["document"]| && SoFar(node, parts, hs, c)
    ensures Yields(node, hs, c)
  {
    assert DocumentScans(node, parts, c);
  }

  lemma DocumentInCorpus(c: Corpus, d: nat)
    requires ValidCorpus(c) && "document" in c.spans && d < |c.spans["document"]|
    ensures c.spans["document"][d].end <= c.tokenCount
    ensures d + 1 < |c.spans["document"]| ==> c.spans["document"][d].end <= c.spans["document"][d + 1].start
  {
    var docs := c.spans["document"];
    if d < |docs| - 1 {
      assert docs[d].end <= docs[|docs| - 1].start;
    }
  }

  method ExecuteSequenceInRange(node: PlanNode, c: Corpus, lo: nat, hi: nat) returns (hs: seq<Hit>)
    requires ValidCorpus(c) && node.SequenceScan? && hi <= c.tokenCount
    ensures HitsInside(hs, lo, hi) && StrictHits(hs) && Scans(node, hs, c, lo, hi)
    decreases node, 2
  {
    var runs, pieces := BuildRunIndices(node, c, lo, hi);
    if HasLabels(node.steps) {
      hs := HitsOfLabelled(node.steps, runs, lo, hi, pieces);
    } else {
      hs := HitsOfUnlabelled(node.steps, runs, lo, hi, pieces);
    }
  }

  // build_run_indices: a step whose node fails is treated as matching nowhere.
  method BuildRunIndices(node: PlanNode, c: Corpus, lo: nat, hi: nat)
    returns (runs: seq<seq<Run>>, ghost pieces: seq<Piece>)
    requires ValidCorpus(c) && node.SequenceScan? && hi <= c.tokenCount
    ensures PiecesGiven(node, pieces, c)
    ensures Prepared(EngineSteps(node.steps), runs, lo, hi, Restrict(pieces, lo, hi))
    decreases node, 1
  {
    runs, pieces := [], [];
    for i := 0 to |node.steps|
      invariant |runs| == |pieces| == i
      invariant forall j :: 0 <= j < i ==>
        StepPrepared(EngineSteps(node.steps)[j], runs[j], lo, hi, Within(pieces[j], lo, hi))
      invariant forall j :: 0 <= j < i ==> GivenBy(node, j, pieces[j], c)
    {
      var run;
      ghost var piece;
      run, piece := BuildStep(node, i, c, lo, hi);
      runs := runs + [run];
      pieces := pieces + [piece];
    }
  }

  ghost function Within(piece: Piece, lo: nat, hi: nat): Piece {
    Piece(Clipped(piece.ps, lo, hi), piece.min, piece.max)
  }

  method BuildStep(node: PlanNode, i: nat, c: Corpus, lo: nat, hi: nat) returns (run: seq<Run>, ghost piece: Piece)
    requires ValidCorpus(c) && node.SequenceScan? && i < |node.steps| && hi <= c.tokenCount
    ensures GivenBy(node, i, piece, c)
    ensures StepPrepared(EngineStep(node.steps[i]), run, lo, hi, Within(piece, lo, hi))
    decreases node, 0
  {
    var step := node.steps[i];
    if step.node.ScanAll? {
      run := if lo >= hi then [] else [Run(lo, hi)];
      ghost var hs := TokensExist(RangeSet(0, c.tokenCount));
      piece := Piece(RangeSet(0, c.tokenCount), step.min, step.max);
      assert Yields(step.node, hs, c);
      assert Clipped(piece.ps, lo, hi) == RangeSet(lo, hi);
      WholeRange(run, lo, hi);
    } else {
      var found;
      ghost var a;
      found, a := GetMatchingPositionsInRange(step.node, c, lo, hi);
      var positions := if found.Ok? then found.value else [];
      run := FromPositions(positions);
      if found.Ok? {
        piece := Piece(HitStarts(a), step.min, step.max);
      } else {
        piece := Piece({}, step.min, step.max);
        assert Clipped({}, lo, hi) == {} == Elements(positions);
      }
    }
  }

  lemma WholeRange(run: seq<Run>, lo: nat, hi: nat)
    requires run == if lo >= hi then [] else [Run(lo, hi)]
    ensures Represents(run, RangeSet(lo, hi))
  {
    forall p: nat
      ensures p in RangeSet(lo, hi) <==> InRuns(run, p)
    {
      if lo <= p < hi {
        assert run[0].start <= p < run[0].end;
      }
    }
  }

  // The answer of a range lookup: the starts of one outcome, inside the range.
  ghost predicate ReturnsInRange(r: Result<seq<nat>>, node: PlanNode, c: Corpus, lo: nat, hi: nat, a: seq<Hit>) {
    && (r.Ok? <==> Meaning(node, c).Some?)
    && (r.Ok? ==> Yields(node, a, c) && Elements(r.value) == Clipped(HitStarts(a), lo, hi))
  }

  method Clip(ps: seq<nat>, lo: nat, hi: nat) returns (r: seq<nat>)
    ensures Elements(r) == Clipped(Elements(ps), lo, hi)
  {
    r := [];
    for i := 0 to |ps|
      invariant Elements(r) == Clipped(Elements(ps[..i]), lo, hi)
    {
      ElementsNext(ps, i);
      if lo <= ps[i] < hi {
        assert Elements(r + [ps[i]]) == Elements(r) + {ps[i]};
        r := r + [ps[i]];
      }
    }
    assert ps[..|ps|] == ps;
  }

  method AscendingIn(s: set<nat>, lo: nat, hi: nat) returns (r: seq<nat>)
    ensures Elements(r) == Clipped(s, lo, hi)
  {
    var all := Ascending(s);
    assert Elements(all) == s;
    r := Clip(all, lo, hi);
  }

  method GetMatchingPositionsInRange(node: PlanNode, c: Corpus, lo: nat, hi: nat)
    returns (r: Result<seq<nat>>, ghost a: seq<Hit>)
    requires ValidCorpus(c) && hi <= c.tokenCount
    ensures ReturnsInRange(r, node, c, lo, hi, a)
    decreases node, 6
  {
    a := [];
    match node {
      case ScanAll =>
        r, a := TokensInRange(node, c, RangeSet(0, c.tokenCount), lo, hi);
      case ScanLiteral(layer, value) =>
        r, a := TokensInRange(node, c, Bitmap(c, layer, value), lo, hi);
      case ScanRegex(layer, pattern) =>
        var re := c.compile(pattern);
        if re.None? {
          return Err, a;
        }
        var all := RegexPositions(c, layer, re.value);
        r, a := TokensInRange(node, c, all, lo, hi);
      case Union(nodes) =>
        r, a := MatchUnion(node, c, lo, hi);
      case Intersect(nodes) =>
        r, a := MatchIntersect(node, c, lo, hi);
      case Difference(base, subtract) =>
        r, a := MatchDifference(node, c, lo, hi);
      case _ =>
        var hits := ExecuteNode(node, c);
        if hits.Err? {
          return Err, a;
        }
        var starts := StartsOf(hits.value);
        var ps := AscendingIn(starts, lo, hi);
        return Ok(ps), hits.value;
    }
  }

  method TokensInRange(ghost node: PlanNode, ghost c: Corpus, all: set<nat>, lo: nat, hi: nat)
    returns (r: Result<seq<nat>>, ghost a: seq<Hit>)
    requires Meaning(node, c).Some?
    requires forall hs :: Tokens(hs, all) ==> Yields(node, hs, c)
    ensures ReturnsInRange(r, node, c, lo, hi, a)
  {
    var ps := AscendingIn(all, lo, hi);
    r := Ok(ps);
    a := TokensExist(all);
  }

  lemma ClippedAlgebra(a: set<nat>, b: set<nat>, lo: nat, hi: nat)
    ensures Clipped(a + b, lo, hi) == Clipped(a, lo, hi) + Clipped(b, lo, hi)
    ensures Clipped(a * b, lo, hi) == Clipped(a, lo, hi) * Clipped(b, lo, hi)
    ensures Clipped(a - b, lo, hi) == Clipped(a, lo, hi) - Clipped(b, lo, hi)
  {
  }

  method ToSet(ps: seq<nat>) returns (r: set<nat>)
    ensures r == Elements(ps)
  {
    r := set p | p in ps;
  }

  method Listed(s: set<nat>) returns (r: seq<nat>)
    ensures Elements(r) == s
  {
    r := Ascending(s);
  }

  lemma UnionYields(node: PlanNode, rs: seq<seq<Hit>>, c: Corpus) returns (hs: seq<Hit>)
    requires node.Union? && YieldEach(node.nodes, rs, c)
    ensures Yields(node, hs, c) && HitStarts(hs) == AnyOf(rs)
  {
    hs := TokensExist(AnyOf(rs));
  }

  method MatchUnion(node: PlanNode, c: Corpus, lo: nat, hi: nat) returns (r: Result<seq<nat>>, ghost a: seq<Hit>)
    requires ValidCorpus(c) && hi <= c.tokenCount && node.Union?
    ensures ReturnsInRange(r, node, c, lo, hi, a)
    decreases node, 5
  {
    a := [];
    var positions: set<nat> := {};
    ghost var rs := [];
    for i := 0 to |node.nodes|
      invariant YieldEach(node.nodes[..i], rs, c)
      invariant positions == Clipped(AnyOf(rs), lo, hi)
    {
      var more;
      ghost var b;
      more, b := GetMatchingPositionsInRange(node.nodes[i], c, lo, hi);
      if more.Err? {
        return Err, a;
      }
      YieldNext(node.nodes, rs, i, b, c);
      ClippedAlgebra(AnyOf(rs), HitStarts(b), lo, hi);
      var found := ToSet(more.value);
      positions := positions + found;
      rs := rs + [b];
    }
    assert node.nodes[..|node.nodes|] == node.nodes;
    var ps := Listed(positions);
    r := Ok(ps);
    a := UnionYields(node, rs, c);
  }

  lemma IntersectYields(node: PlanNode, rs: seq<seq<Hit>>, c: Corpus) returns (hs: seq<Hit>)
    requires node.Intersect? && YieldEach(node.nodes, rs, c)
    ensures Yields(node, hs, c) && HitStarts(hs) == CommonOf(rs)
  {
    hs := TokensExist(CommonOf(rs));
  }

  method MatchIntersect(node: PlanNode, c: Corpus, lo: nat, hi: nat) returns (r: Result<seq<nat>>, ghost a: seq<Hit>)
    requires ValidCorpus(c) && hi <= c.tokenCount && node.Intersect?
    ensures ReturnsInRange(r, node, c, lo, hi, a)
    decreases node, 5
  {
    a := [];
    if node.nodes == [] {
      a := IntersectYields(node, [], c);
      assert Elements([]) == Clipped(HitStarts(a), lo, hi);
      return Ok([]), a;
    }
    var positions: set<nat> := {};
    ghost var rs := [];
    for i := 0 to |node.nodes|
      invariant YieldEach(node.nodes[..i], rs, c) && |rs| == i
      invariant positions == Clipped(CommonOf(rs), lo, hi)
    {
      var more;
      ghost var b;
      more, b := GetMatchingPositionsInRange(node.nodes[i], c, lo, hi);
      if more.Err? {
        return Err, a;
      }
      YieldNext(node.nodes, rs, i, b, c);
      ClippedAlgebra(CommonOf(rs), HitStarts(b), lo, hi);
      var found := ToSet(more.value);
      positions := if i == 0 then found else positions * found;
      rs := rs + [b];
    }
    assert node.nodes[..|node.nodes|] == node.nodes;
    var ps := Listed(positions);
    r := Ok(ps);
    a := IntersectYields(node, rs, c);
  }

  // The hits that a difference keeps begin where base hits do and subtracted ones do not.
  lemma DifferenceStarts(a: seq<Hit>, b: seq<Hit>, kept: seq<Hit>)
    requires Kept(kept, a, NotAmong(HitStarts(b)))
    ensures HitStarts(kept) == HitStarts(a) - HitStarts(b)
  {
    forall p | p in HitStarts(a) && p !in HitStarts(b)
      ensures p in HitStarts(kept)
    {
      var s :| s in SpanSet(a) && s.start == p;
      var h :| h in a && h.span == s;
      assert h in kept;
      assert s in SpanSet(kept);
    }
    forall p | p in HitStarts(kept)
      ensures p in HitStarts(a) && p !in HitStarts(b)
    {
      var s :| s in SpanSet(kept) && s.start == p;
      var h :| h in kept && h.span == s;
      assert h in a && NotAmong(HitStarts(b))(h);
      assert s in SpanSet(a);
    }
  }

  lemma DifferenceYields(node: PlanNode, a: seq<Hit>, b: seq<Hit>, c: Corpus) returns (hs: seq<Hit>)
    requires node.Difference? && Yields(node.base, a, c) && Yields(node.subtract, b, c)
    ensures Yields(node, hs, c) && HitStarts(hs) == HitStarts(a) - HitStarts(b)
  {
    hs := Filter(a, (h: Hit) => h.span.start !in HitStarts(b));
    assert Kept(hs, a, NotAmong(HitStarts(b)));
    DifferenceStarts(a, b, hs);
  }

  method Subtract(base: seq<nat>, subtract: seq<nat>) returns (kept: seq<nat>)
    ensures Elements(kept) == Elements(base) - Elements(subtract)
  {
    kept := [];
    for i := 0 to |base|
      invariant Elements(kept) == Elements(base[..i]) - Elements(subtract)
    {
      ElementsNext(base, i);
      if base[i] !in subtract {
        assert Elements(kept + [base[i]]) == Elements(kept) + {base[i]};
        kept := kept + [base[i]];
      }
    }
    assert base[..|base|] == base;
  }

  method MatchDifference(node: PlanNode, c: Corpus, lo: nat, hi: nat) returns (r: Result<seq<nat>>, ghost a: seq<Hit>)
    requires ValidCorpus(c) && hi <= c.tokenCount && node.Difference?
    ensures ReturnsInRange(r, node, c, lo, hi, a)
    decreases node, 5
  {
    ghost var x, y;
    var base, subtract;
    a := [];
    base, x := GetMatchingPositionsInRange(node.base, c, lo, hi);
    if base.Err? {
      return Err, a;
    }
    subtract, y := GetMatchingPositionsInRange(node.subtract, c, lo, hi);
    if subtract.Err? {
      return Err, a;
    }
    var kept := Subtract(base.value, subtract.value);
    r := Ok(kept);
    a := DifferenceYields(node, x, y, c);
    ClippedAlgebra(HitStarts(x), HitStarts(y), lo, hi);
  }
}
