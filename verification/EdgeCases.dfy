// crates/montre-query/src/executor.rs: two places where a plan selects something else than one
// might expect, each with when it does.
module EdgeCases {
  import opened Core
  import opened Runs
  import opened Sequence
  import opened Ast
  import opened Plan
  import opened Dispatch
  import opened Group
  import opened Outcomes

  // ---------------------------------------------------------------------------------
  // An error inside a sequence is not reported: the step matches nowhere.

  lemma NothingFits(piece: Piece, a: nat, b: nat)
    requires piece.ps == {} && piece.min >= 1
    ensures !PieceFits(piece, a, b)
  {
    assert a < b && Covered(piece.ps, a, b) ==> a in piece.ps;
  }

  lemma {:induction false} EmptyPiece(pieces: seq<Piece>, lo: nat, hi: nat, i: nat)
    requires i < |pieces| && pieces[i].ps == {} && pieces[i].min >= 1
    ensures SpansIn(pieces, lo, hi) == {}
  {
    var inner := Restrict(pieces, lo, hi);
    forall cs: seq<nat>
      ensures !Trace(inner, |inner|, cs)
    {
      if i + 1 < |cs| {
        NothingFits(inner[i], cs[i], cs[i + 1]);
      }
    }
    forall x
      ensures x !in SpansIn(pieces, lo, hi)
    {
      assert x == Span(x.start, x.end);
    }
  }

  // A sequence never fails; with a failing step that needs a token it selects nothing.
  lemma {:induction false} FailedStep(steps: seq<SequenceStep>, c: Corpus, i: nat)
    requires i < |steps| && Meaning(steps[i].node, c).None? && steps[i].min >= 1
    ensures Meaning(SequenceScan(steps), c) == Some({})
  {
    var pieces := PiecesOf(steps, c);
    MeaningOfSequence(steps, c);
    forall lo: nat, hi: nat
      ensures SpansIn(pieces, lo, hi) == {}
    {
      EmptyPiece(pieces, lo, hi, i);
    }
    assert SequenceSpans(c, steps, pieces) == {};
  }

  // The same regular expression alone is an error, and as a step is none.
  lemma BadRegexInSequence(layer: string, pattern: string, c: Corpus)
    requires c.compile(pattern).None?
    ensures Meaning(ScanRegex(layer, pattern), c).None?
    ensures Meaning(SequenceScan([GroupStep(ScanRegex(layer, pattern))]), c) == Some({})
  {
    FailedStep([GroupStep(ScanRegex(layer, pattern))], c, 0);
  }

  // The nodes of a plan that no sequence stands above.
  ghost function Exposed(node: PlanNode): set<PlanNode>
    decreases node
  {
    match node
    case Intersect(nodes) => {node} + set i, n | 0 <= i < |nodes| && n in Exposed(nodes[i]) :: n
    case Union(nodes) => {node} + set i, n | 0 <= i < |nodes| && n in Exposed(nodes[i]) :: n
    case Difference(base, subtract) => {node} + Exposed(base) + Exposed(subtract)
    case FilterBySpan(inner, _) => {node} + Exposed(inner)
    case FilterByComponent(inner, _) => {node} + Exposed(inner)
    case FilterByDocument(inner, _) => {node} + Exposed(inner)
    case ProjectAlignment(inner, _) => {node} + Exposed(inner)
    case GlobalConstraintFilter(inner, _) => {node} + Exposed(inner)
    case _ => {node}
  }

  // An invalid pattern, or a projection along an alignment that is not there.
  predicate Faulty(node: PlanNode, c: Corpus) {
    || (node.ScanRegex? && c.compile(node.pattern).None?)
    || (node.ProjectAlignment? && Projection(c, node.alignment).None?)
  }

  ghost predicate ShowsFault(node: PlanNode, c: Corpus) {
    exists n :: n in Exposed(node) && Faulty(n, c)
  }

  lemma GroupFaults(node: PlanNode, nodes: seq<PlanNode>, c: Corpus)
    requires node == Intersect(nodes) || node == Union(nodes)
    ensures ShowsFault(node, c) <==> exists i :: 0 <= i < |nodes| && ShowsFault(nodes[i], c)
  {
    if i :| 0 <= i < |nodes| && ShowsFault(nodes[i], c) {
      var n :| n in Exposed(nodes[i]) && Faulty(n, c);
      assert n in Exposed(node);
    }
  }

  // A plan is an error if and only if a faulty node is in it that no sequence stands above.
  lemma {:induction false} FailsIff(node: PlanNode, c: Corpus)
    ensures Meaning(node, c).None? <==> ShowsFault(node, c)
    decreases node
  {
    match node {
      case Intersect(nodes) =>
        forall i | 0 <= i < |nodes|
          ensures Meaning(nodes[i], c).None? <==> ShowsFault(nodes[i], c)
        {
          FailsIff(nodes[i], c);
        }
        GroupFaults(node, nodes, c);
      case Union(nodes) =>
        forall i | 0 <= i < |nodes|
          ensures Meaning(nodes[i], c).None? <==> ShowsFault(nodes[i], c)
        {
          FailsIff(nodes[i], c);
        }
        GroupFaults(node, nodes, c);
      case Difference(base, subtract) =>
        FailsIff(base, c);
        FailsIff(subtract, c);
        DifferenceFaults(node, c);
      case FilterBySpan(inner, _) => FailsIff(inner, c); InnerFaults(node, c);
      case FilterByComponent(inner, _) => FailsIff(inner, c); InnerFaults(node, c);
      case FilterByDocument(inner, _) => FailsIff(inner, c); InnerFaults(node, c);
      case ProjectAlignment(inner, _) => FailsIff(inner, c); InnerFaults(node, c);
      case GlobalConstraintFilter(inner, _) => FailsIff(inner, c); InnerFaults(node, c);
      case _ => assert node in Exposed(node);
    }
  }

  lemma DifferenceFaults(node: PlanNode, c: Corpus)
    requires node.Difference?
    ensures ShowsFault(node, c) <==> ShowsFault(node.base, c) || ShowsFault(node.subtract, c)
  {
  }

  lemma InnerFaults(node: PlanNode, c: Corpus)
    requires IsFilter(node) || node.ProjectAlignment?
    ensures ShowsFault(node, c) <==> Faulty(node, c) || ShowsFault(node.inner, c)
  {
    assert Exposed(node) == {node} + Exposed(node.inner);
  }

  // ---------------------------------------------------------------------------------
  // A span filter on a layer that the corpus does not have keeps everything.

  ghost predicate AllInside(spans: set<Span>, c: Corpus, layer: string) {
    forall x :: x in spans ==> layer in c.spans && InsideOne(c.spans[layer], x)
  }

  // What is kept lies inside spans of the layer if and only if there is such a layer, or nothing
  // to keep.
  lemma SpanFilterIff(inner: PlanNode, layer: string, c: Corpus)
    requires Meaning(inner, c).Some?
    ensures Meaning(FilterBySpan(inner, layer), c).Some?
    ensures AllInside(Meaning(FilterBySpan(inner, layer), c).value, c, layer) <==>
      layer in c.spans || Meaning(inner, c).value == {}
  {
    if layer !in c.spans {
      assert Meaning(FilterBySpan(inner, layer), c) == Meaning(inner, c);
      if Meaning(inner, c).value != {} {
        var x :| x in Meaning(inner, c).value;
        assert !AllInside(Meaning(inner, c).value, c, layer);
      }
    }
  }

  // One token and no span layer at all: the token is kept.
  lemma UnknownLayerKeeps(c: Corpus, layer: string)
    requires c.tokenCount == 1 && c.spans == map[]
    ensures Meaning(FilterBySpan(ScanAll, layer), c) == Some({Span(0, 1)})
    ensures !AllInside({Span(0, 1)}, c, layer)
  {
    assert Singletons(RangeSet(0, 1)) == {Span(0, 1)};
  }
}
