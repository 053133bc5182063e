// crates/montre-query/src/executor.rs: exactly when a constraint filter can depend on which cut of a
// span the scan kept. For sequences of steps that match any token both halves are shown, with
// the two results of a plan whose result does depend on it.
module Filtered {
  import opened Core
  import opened Runs
  import opened Sequence
  import opened Engine
  import opened Labelled
  import opened Determined
  import opened Ast
  import opened Plan
  import opened Hits
  import opened Constraints
  import opened Outcomes
  import opened Verdict
  import opened Witness

  // ---------------------------------------------------------------------------------
  // Steps that match every token, on a corpus of n tokens and no documents: there the captures
  // are fixed only where the quantifiers fix them.

  function NoPattern(pattern: string): Option<string -> bool> {
    None
  }

  function Plain(n: nat, attribute: (nat, string) -> Option<string>): Corpus {
    Corpus(n, map[], attribute, map[], [], [], [], map[], NoPattern)
  }

  predicate AnyToken(steps: seq<SequenceStep>) {
    forall i :: 0 <= i < |steps| ==> steps[i].node.ScanAll?
  }

  function FreePieces(steps: seq<SequenceStep>, n: nat): (r: seq<Piece>)
    ensures |r| == |steps|
    ensures forall i :: 0 <= i < |r| ==> r[i] == Piece(RangeSet(0, n), steps[i].min, steps[i].max)
  {
    WithSets(Quants(StepQuant, EngineSteps(steps)), AllTokens(|steps|, n))
  }

  lemma FreeRestricted(steps: seq<SequenceStep>, n: nat)
    ensures Restrict(FreePieces(steps, n), 0, n) == FreePieces(steps, n)
  {
    assert Clipped(RangeSet(0, n), 0, n) == RangeSet(0, n);
  }

  lemma FreeGiven(steps: seq<SequenceStep>, n: nat, c: Corpus, i: nat)
    requires AnyToken(steps) && i < |steps| && c.tokenCount == n
    ensures GivenBy(SequenceScan(steps), i, FreePieces(steps, n)[i], c)
  {
    var all := TokensExist(RangeSet(0, n));
    assert Yields(steps[i].node, all, c);
  }

  lemma FreeYields(steps: seq<SequenceStep>, n: nat, c: Corpus, hs: seq<Hit>)
    requires AnyToken(steps) && c.tokenCount == n && "document" !in c.spans
    requires Found(hs, steps, FreePieces(steps, n), 0, n)
    ensures Yields(SequenceScan(steps), hs, c)
  {
    var node, pieces := SequenceScan(steps), FreePieces(steps, n);
    forall i | 0 <= i < |steps|
      ensures GivenBy(node, i, pieces[i], c)
    {
      FreeGiven(steps, n, c, i);
    }
    assert PiecesGiven(node, pieces, c);
    assert Scans(node, hs, c, 0, n);
  }

  ghost function WholeHit(steps: seq<SequenceStep>, n: nat, cs: seq<nat>): Hit
    requires |cs| == |steps| + 1
  {
    Hit(Span(0, n), CapturesOf(EngineSteps(steps), cs, |steps|))
  }

  // Every cut of all tokens is one that the scan may keep.
  lemma {:induction false} CutIsFound(steps: seq<SequenceStep>, n: nat, cs: seq<nat>)
    requires IsCut(FreePieces(steps, n), cs) && cs[0] == 0 && cs[|steps|] == n > 0
    ensures Span(0, n) in SpansIn(FreePieces(steps, n), 0, n)
    ensures JustifiedIn(WholeHit(steps, n, cs), steps, FreePieces(steps, n), 0, n)
  {
    var pieces, k := FreePieces(steps, n), |steps|;
    FreeRestricted(steps, n);
    assert k > 0;
    if k > 1 {
      assert RunStart(pieces[1].ps, 0);
    }
    assert PieceFits(pieces[0], cs[0], cs[1]);
    assert Trace(pieces, k, cs);
    assert Reach(pieces, k, 0, n);
    assert JustifiedBy(EngineSteps(steps), pieces, k, n, ActiveMatch(0, WholeHit(steps, n, cs).captures), cs);
  }

  // Two outcomes with different captures where the quantifiers do not fix them.
  lemma {:induction false} FreePlanVaries(steps: seq<SequenceStep>, attribute: (nat, string) -> Option<string>)
    returns (n: nat, a: seq<Hit>, b: seq<Hit>)
    requires AnyToken(steps) && !CapturesFixed(EngineSteps(steps))
    ensures Yields(SequenceScan(steps), a, Plain(n, attribute)) && Yields(SequenceScan(steps), b, Plain(n, attribute))
    ensures a != b
  {
    var cs, ds;
    n, cs, ds := FreeWitness(EngineSteps(steps));
    var pieces := FreePieces(steps, n);
    CutIsFound(steps, n, cs);
    CutIsFound(steps, n, ds);
    var g, h := WholeHit(steps, n, cs), WholeHit(steps, n, ds);
    a := FoundWith(g, steps, pieces, 0, n);
    b := FoundWith(h, steps, pieces, 0, n);
    FreeYields(steps, n, Plain(n, attribute), a);
    FreeYields(steps, n, Plain(n, attribute), b);
    if a == b {
      OneHitPerSpan(a, g, h);
    }
  }

  // Executing a sequence of such steps gives one list of hits on every corpus if and only if the
  // quantifiers fix the captures.
  lemma {:induction false} OneListIffFixed(steps: seq<SequenceStep>)
    requires AnyToken(steps)
    ensures (forall c :: SameAlways(SequenceScan(steps), c)) <==> CapturesFixed(EngineSteps(steps))
  {
    var node := SequenceScan(steps);
    if CapturesFixed(EngineSteps(steps)) {
      assert OneHits(node);
      forall c
        ensures SameAlways(node, c)
      {
        OneOutcome(node, c);
      }
    } else {
      var n, a, b := FreePlanVaries(steps, Words);
      assert !SameAlways(node, Plain(n, Words));
    }
  }

  // Another justified hit for the same span makes another outcome of the scan.
  lemma FoundSwapped(hs: seq<Hit>, i: nat, h: Hit, steps: seq<SequenceStep>, pieces: seq<Piece>, lo: nat, hi: nat)
    requires Found(hs, steps, pieces, lo, hi) && i < |hs| && h.span == hs[i].span &&
      JustifiedIn(h, steps, pieces, lo, hi)
    ensures Found(hs[i := h], steps, pieces, lo, hi)
  {
    SameSpans(hs, i, h);
    var swapped := hs[i := h];
    forall a, b | 0 <= a < b < |swapped|
      ensures Before(swapped[a].span, swapped[b].span)
    {
      assert Before(hs[a].span, hs[b].span);
    }
  }

  lemma SameSpans(hs: seq<Hit>, i: nat, h: Hit)
    requires i < |hs| && h.span == hs[i].span
    ensures SpanSet(hs[i := h]) == SpanSet(hs)
  {
    var swapped := hs[i := h];
    forall x | x in SpanSet(hs)
      ensures x in SpanSet(swapped)
    {
      var j :| 0 <= j < |hs| && hs[j].span == x;
      assert swapped[j] in swapped;
    }
    forall x | x in SpanSet(swapped)
      ensures x in SpanSet(hs)
    {
      var j :| 0 <= j < |hs| && swapped[j].span == x;
      assert hs[j] in hs;
    }
  }

  // Filtering before and after a hit that satisfies the constraints was swapped for one of the
  // same span that does not: one hit less.
  lemma SwappedFilter(hs: seq<Hit>, i: nat, no: Hit, keep: Hit -> bool, a: seq<Hit>, b: seq<Hit>)
    requires StrictHits(hs) && i < |hs| && no.span == hs[i].span && keep(hs[i]) && !keep(no)
    requires Kept(a, hs, keep) && Kept(b, hs[i := no], keep) && StrictHits(a) && StrictHits(b)
    ensures hs[i].span in SpanSet(a) && hs[i].span !in SpanSet(b) && |a| == |b| + 1
  {
    var x, swapped := hs[i].span, hs[i := no];
    assert hs[i] in a;
    forall h | h in b
      ensures h in a && h.span != x
    {
      var j :| 0 <= j < |swapped| && swapped[j] == h;
      assert j != i && hs[j] == h;
      assert Before(hs[i].span, h.span) || Before(h.span, hs[i].span);
    }
    forall h | h in a && h != hs[i]
      ensures h in b
    {
      var j :| 0 <= j < |hs| && hs[j] == h;
      assert swapped[j] == h;
    }
    assert SpanSet(a) == SpanSet(b) + {x};
    DeliversCount(a, SpanSet(a));
    DeliversCount(b, SpanSet(b));
  }

  lemma FilteredYields(inner: PlanNode, gs: seq<GlobalConstraint>, x: seq<Hit>, c: Corpus) returns (a: seq<Hit>)
    requires Yields(inner, x, c) && StrictHits(x)
    ensures Yields(GlobalConstraintFilter(inner, gs), a, c) && Kept(a, x, Meeting(c, gs)) && StrictHits(a)
  {
    a := Filter(x, Meeting(c, gs));
  }

  // The scan may keep either of two justified hits for a span, all else being the same.
  lemma EitherKept(steps: seq<SequenceStep>, n: nat, c: Corpus, g: Hit, h: Hit) returns (first: seq<Hit>, i: nat)
    requires AnyToken(steps) && c.tokenCount == n && "document" !in c.spans
    requires g.span == h.span && g.span in SpansIn(FreePieces(steps, n), 0, n)
    requires JustifiedIn(g, steps, FreePieces(steps, n), 0, n) && JustifiedIn(h, steps, FreePieces(steps, n), 0, n)
    ensures i < |first| && first[i] == g && StrictHits(first)
    ensures Yields(SequenceScan(steps), first, c) && Yields(SequenceScan(steps), first[i := h], c)
  {
    var pieces := FreePieces(steps, n);
    first := FoundWith(g, steps, pieces, 0, n);
    i :| 0 <= i < |first| && first[i] == g;
    FoundSwapped(first, i, h, steps, pieces, 0, n);
    FreeYields(steps, n, c, first);
    FreeYields(steps, n, c, first[i := h]);
  }

  // Whenever a scan may keep a cut that satisfies the constraints, or one of the same span that
  // does not, the filtered plan has an outcome with the span and one without.
  lemma TwoResults(steps: seq<SequenceStep>, gs: seq<GlobalConstraint>, n: nat, c: Corpus, yes: Hit, no: Hit)
    returns (a: seq<Hit>, b: seq<Hit>)
    requires AnyToken(steps) && c.tokenCount == n && "document" !in c.spans
    requires yes.span == no.span && yes.span in SpansIn(FreePieces(steps, n), 0, n)
    requires JustifiedIn(yes, steps, FreePieces(steps, n), 0, n) && JustifiedIn(no, steps, FreePieces(steps, n), 0, n)
    requires SatisfiesAll(c, yes, gs) && !SatisfiesAll(c, no, gs)
    ensures Yields(GlobalConstraintFilter(SequenceScan(steps), gs), a, c)
    ensures Yields(GlobalConstraintFilter(SequenceScan(steps), gs), b, c)
    ensures yes.span in SpanSet(a) && yes.span !in SpanSet(b) && |a| == |b| + 1
  {
    var first, i := EitherKept(steps, n, c, yes, no);
    var keep := Meeting(c, gs);
    a := FilteredYields(SequenceScan(steps), gs, first, c);
    b := FilteredYields(SequenceScan(steps), gs, first[i := no], c);
    SwappedFilter(first, i, no, keep, a, b);
  }

  // ---------------------------------------------------------------------------------
  // Exactly when filtered results are determined.

  lemma WholeLabelled(steps: seq<SequenceStep>, n: nat, cs: seq<nat>)
    requires IsCut(FreePieces(steps, n), cs) && cs[0] == 0 && cs[|steps|] == n
    ensures LabelledBy(WholeHit(steps, n, cs), EngineSteps(steps), cs)
  {
    CutHasLengths(EngineSteps(steps), FreePieces(steps, n), cs);
  }

  // Two cuts of all tokens with different verdicts make two results.
  lemma CutsDiffer(steps: seq<SequenceStep>, gs: seq<GlobalConstraint>, n: nat, c: Corpus, cs: seq<nat>, ds: seq<nat>)
    returns (a: seq<Hit>, b: seq<Hit>)
    requires AnyToken(steps) && c.tokenCount == n && "document" !in c.spans && FreeCuts(EngineSteps(steps), n, cs, ds)
    requires SatisfiesAll(c, WholeHit(steps, n, cs), gs) && !SatisfiesAll(c, WholeHit(steps, n, ds), gs)
    ensures Yields(GlobalConstraintFilter(SequenceScan(steps), gs), a, c)
    ensures Yields(GlobalConstraintFilter(SequenceScan(steps), gs), b, c)
    ensures |a| == |b| + 1 && SpanSet(a) != SpanSet(b)
  {
    CutIsFound(steps, n, cs);
    CutIsFound(steps, n, ds);
    a, b := TwoResults(steps, gs, n, c, WholeHit(steps, n, cs), WholeHit(steps, n, ds));
  }

  // Two results of a filtered plan on some corpus.
  ghost predicate Varies(steps: seq<SequenceStep>, gs: seq<GlobalConstraint>, c: Corpus, a: seq<Hit>, b: seq<Hit>) {
    && ValidCorpus(c)
    && Yields(GlobalConstraintFilter(SequenceScan(steps), gs), a, c)
    && Yields(GlobalConstraintFilter(SequenceScan(steps), gs), b, c)
    && |a| == |b| + 1 && SpanSet(a) != SpanSet(b)
  }

  lemma StartFilterVaries(steps: seq<SequenceStep>, name: string) returns (c: Corpus, a: seq<Hit>, b: seq<Hit>)
    requires AnyToken(steps) && !StartFixed(EngineSteps(steps), name)
    requires forall i :: 0 <= i < |steps| ==> !Impossible(EngineSteps(steps)[i])
    ensures Varies(steps, [StartsThere(name)], c, a, b)
  {
    var es := EngineSteps(steps);
    var i := LabelOf(es, name).value;
    var n, cs, ds := StartVaries(es, i);
    c := Plain(n, Telling(cs[i]));
    WholeLabelled(steps, n, cs);
    WholeLabelled(steps, n, ds);
    StartVerdict(c, WholeHit(steps, n, cs), es, cs, name, cs[i]);
    StartVerdict(c, WholeHit(steps, n, ds), es, ds, name, cs[i]);
    a, b := CutsDiffer(steps, [StartsThere(name)], n, c, cs, ds);
  }

  lemma GapFilterVaries(steps: seq<SequenceStep>, from: string, to: string)
    returns (d: nat, c: Corpus, a: seq<Hit>, b: seq<Hit>)
    requires AnyToken(steps) && !GapFixed(EngineSteps(steps), from, to)
    requires forall i :: 0 <= i < |steps| ==> !Impossible(EngineSteps(steps)[i])
    ensures Varies(steps, [Distance(from, to, Eq, d)], c, a, b)
  {
    var es := EngineSteps(steps);
    var i, j := LabelOf(es, from).value, LabelOf(es, to).value;
    var n, cs, ds := GapVaries(es, i, j);
    d := GapIn(cs, i, j);
    c := Plain(n, Telling(0));
    WholeLabelled(steps, n, cs);
    WholeLabelled(steps, n, ds);
    GapVerdict(c, WholeHit(steps, n, cs), es, cs, from, to, d);
    GapVerdict(c, WholeHit(steps, n, ds), es, ds, from, to, d);
    a, b := CutsDiffer(steps, [Distance(from, to, Eq, d)], n, c, cs, ds);
  }

  lemma OneReadsOnly(g: GlobalConstraint, gs: seq<GlobalConstraint>)
    requires if g.Distance? then ReadsGap(gs, g.from, g.to)
      else ReadsStart(gs, g.left.name) && ReadsStart(gs, g.right.name)
    ensures ReadsOnly([g], gs)
  {
  }

  // Where something that the constraints read is not fixed, some constraints that read the same
  // have two results.
  lemma {:induction false} FilterVaries(steps: seq<SequenceStep>, gs: seq<GlobalConstraint>)
    returns (more: seq<GlobalConstraint>, c: Corpus, a: seq<Hit>, b: seq<Hit>)
    requires AnyToken(steps) && !VerdictFixed(EngineSteps(steps), gs)
    ensures ReadsOnly(more, gs) && Varies(steps, more, c, a, b)
  {
    var es := EngineSteps(steps);
    var g :| g in gs && !ReadFixed(es, g);
    if g.Distance? {
      var d;
      d, c, a, b := GapFilterVaries(steps, g.from, g.to);
      more := [Distance(g.from, g.to, Eq, d)];
      OneReadsOnly(more[0], gs);
    } else {
      var name := if StartFixed(es, g.left.name) then g.right.name else g.left.name;
      c, a, b := StartFilterVaries(steps, name);
      more := [StartsThere(name)];
      OneReadsOnly(more[0], gs);
    }
  }

  // Whatever constraints read no more than these do, and on every corpus, the filtered plan
  // selects one set of spans.
  ghost predicate AlwaysAgrees(steps: seq<SequenceStep>, gs: seq<GlobalConstraint>) {
    forall more, c :: ReadsOnly(more, gs) && ValidCorpus(c) ==>
      Agrees(GlobalConstraintFilter(SequenceScan(steps), more), c)
  }

  lemma FixedAgrees(steps: seq<SequenceStep>, gs: seq<GlobalConstraint>, c: Corpus)
    requires AnyToken(steps) && VerdictFixed(EngineSteps(steps), gs)
    ensures Agrees(GlobalConstraintFilter(SequenceScan(steps), gs), c)
  {
    assert OneVerdict(SequenceScan(steps), gs);
    OneOutcome(SequenceScan(steps), c);
  }

  // It does if and only if the check on quantifiers, labels and constraints passes.
  lemma {:induction false} FilterIffFixed(steps: seq<SequenceStep>, gs: seq<GlobalConstraint>)
    requires AnyToken(steps)
    ensures AlwaysAgrees(steps, gs) <==> VerdictFixed(EngineSteps(steps), gs)
  {
    if VerdictFixed(EngineSteps(steps), gs) {
      forall more, c | ReadsOnly(more, gs) && ValidCorpus(c)
        ensures Agrees(GlobalConstraintFilter(SequenceScan(steps), more), c)
      {
        FixedForLess(EngineSteps(steps), gs, more);
        FixedAgrees(steps, more, c);
      }
    } else {
      var more, c, a, b := FilterVaries(steps, gs);
      assert !Agrees(GlobalConstraintFilter(SequenceScan(steps), more), c);
    }
  }

  ghost predicate EveryFilterAgrees(steps: seq<SequenceStep>) {
    forall gs, c :: Declared(EngineSteps(steps), gs) && ValidCorpus(c) ==>
      Agrees(GlobalConstraintFilter(SequenceScan(steps), gs), c)
  }

  lemma {:induction false} SomeFilterVaries(steps: seq<SequenceStep>)
    returns (gs: seq<GlobalConstraint>, c: Corpus, a: seq<Hit>, b: seq<Hit>)
    requires AnyToken(steps) && !EveryVerdictFixed(EngineSteps(steps))
    ensures Declared(EngineSteps(steps), gs) && Varies(steps, gs, c, a, b)
  {
    var free := SomeVerdictFree(EngineSteps(steps));
    gs, c, a, b := FilterVaries(steps, free);
    DeclaredForLess(EngineSteps(steps), free, gs);
  }

  // The same for all constraints over the labels of the steps: if and only if every capture that
  // can be found begins at a fixed boundary, and ends at one too unless it is the last.
  lemma {:induction false} EveryFilterIff(steps: seq<SequenceStep>)
    requires AnyToken(steps)
    ensures EveryFilterAgrees(steps) <==> EveryVerdictFixed(EngineSteps(steps))
  {
    if EveryVerdictFixed(EngineSteps(steps)) {
      forall gs, c | Declared(EngineSteps(steps), gs) && ValidCorpus(c)
        ensures Agrees(GlobalConstraintFilter(SequenceScan(steps), gs), c)
      {
        EveryFixed(EngineSteps(steps), gs);
        FixedAgrees(steps, gs, c);
      }
    } else {
      var gs, c, a, b := SomeFilterVaries(steps);
      assert !Agrees(GlobalConstraintFilter(SequenceScan(steps), gs), c);
    }
  }

  // The end of a last capture is never read: a:[]+ []+ has many cuts and one result under any
  // constraints.
  lemma LastEndUnread(name: string, gs: seq<GlobalConstraint>, c: Corpus)
    ensures var steps := [SequenceStep(ScanAll, 1, None, Some(name)), SequenceStep(ScanAll, 1, None, None)];
      && !CapturesFixed(EngineSteps(steps))
      && Agrees(GlobalConstraintFilter(SequenceScan(steps), gs), c)
  {
    var steps := [SequenceStep(ScanAll, 1, None, Some(name)), SequenceStep(ScanAll, 1, None, None)];
    var es := EngineSteps(steps);
    assert es[0].capture == Some(name) && es[1].capture == None;
    assert !Exact(es[..1][0]) && !Exact(es[1..][0]) && !Impossible(es[0]) && !Impossible(es[1]);
    assert !FixedBoundary(es, 1);
    FirstOnly(es, name);
    EveryFixed(es, gs);
    FixedAgrees(steps, gs, c);
  }

  lemma FirstOnly(es: seq<Step>, name: string)
    requires |es| == 2 && es[0].capture == Some(name) && es[1].capture == None
    ensures EveryVerdictFixed(es)
  {
    forall i: nat | Visible(es, i)
      ensures FixedBoundary(es, i) && !LaterVisible(es, i)
    {
      assert i == 0 && AllExact(es[..0]);
    }
  }

  // ---------------------------------------------------------------------------------
  // A corpus and a query whose filtered result depends on the witness: three tokens with
  // words x, x, y, the query a:[]+ b:[]+ and the constraint that both captures begin with
  // the same word. Cut after the first token they do, cut after the second they do not.

  function Words(p: nat, attr: string): Option<string> {
    if p < 2 then Some("x") else Some("y")
  }

  function ThreeWords(): Corpus {
    Plain(3, Words)
  }

  function AnyTokens(name: string): SequenceStep {
    SequenceStep(ScanAll, 1, None, Some(name))
  }

  function TwoParts(): seq<SequenceStep> {
    [AnyTokens("a"), AnyTokens("b")]
  }

  function CutAt(k: nat): Hit {
    Hit(Span(0, 3), [("a", Span(0, k)), ("b", Span(k, 3))])
  }

  function SameWord(): seq<GlobalConstraint> {
    [SameAttr(LabelAttr("a", "word"), LabelAttr("b", "word"))]
  }

  lemma CutCaptures(k: nat)
    ensures WholeHit(TwoParts(), 3, [0, k, 3]) == CutAt(k)
  {
    var es, cs := EngineSteps(TwoParts()), [0, k, 3];
    assert CapturesOf(es, cs, 0) == [];
    assert CapturesOf(es, cs, 1) == [("a", Span(0, k))];
  }

  // Both cuts are found by the scan.
  lemma BothFound(k: nat)
    requires k == 1 || k == 2
    ensures Span(0, 3) in SpansIn(FreePieces(TwoParts(), 3), 0, 3)
    ensures JustifiedIn(CutAt(k), TwoParts(), FreePieces(TwoParts(), 3), 0, 3)
  {
    var cs, pieces := [0, k, 3], FreePieces(TwoParts(), 3);
    assert PieceFits(pieces[0], 0, k) && PieceFits(pieces[1], k, 3);
    CutIsFound(TwoParts(), 3, cs);
    CutCaptures(k);
  }

  lemma CutVerdict(k: nat)
    requires k == 1 || k == 2
    ensures SatisfiesAll(ThreeWords(), CutAt(k), SameWord()) <==> k == 1
  {
    var c, h := ThreeWords(), CutAt(k);
    assert Captured(h.captures, "a") == Some(Span(0, k));
    assert Captured(h.captures[1..], "b") == Some(Span(k, 3));
    assert Captured(h.captures, "b") == Some(Span(k, 3));
    assert SameWord()[0] in SameWord();
    assert Satisfies(c, h, SameWord()[0]) <==> k == 1;
  }

  // All that TwoResults asks for.
  lemma TwoPartsKept(steps: seq<SequenceStep>, gs: seq<GlobalConstraint>, c: Corpus, yes: Hit, no: Hit)
    requires steps == TwoParts() && gs == SameWord() && c == ThreeWords() && yes == CutAt(1) && no == CutAt(2)
    ensures AnyToken(steps) && c.tokenCount == 3 && "document" !in c.spans
    ensures yes.span == no.span == Span(0, 3) && Span(0, 3) in SpansIn(FreePieces(steps, 3), 0, 3)
    ensures JustifiedIn(yes, steps, FreePieces(steps, 3), 0, 3) && JustifiedIn(no, steps, FreePieces(steps, 3), 0, 3)
    ensures SatisfiesAll(c, yes, gs) && !SatisfiesAll(c, no, gs)
  {
    BothFound(1);
    BothFound(2);
    CutVerdict(1);
    CutVerdict(2);
  }

  lemma TwoPartsVary(steps: seq<SequenceStep>, gs: seq<GlobalConstraint>, c: Corpus, yes: Hit, no: Hit)
    returns (a: seq<Hit>, b: seq<Hit>)
    requires steps == TwoParts() && gs == SameWord() && c == ThreeWords() && yes == CutAt(1) && no == CutAt(2)
    ensures Yields(GlobalConstraintFilter(SequenceScan(steps), gs), a, c)
    ensures Yields(GlobalConstraintFilter(SequenceScan(steps), gs), b, c)
    ensures Span(0, 3) in SpanSet(a) && Span(0, 3) !in SpanSet(b) && |a| == |b| + 1
  {
    TwoPartsKept(steps, gs, c, yes, no);
    a, b := TwoResults(steps, gs, 3, c, yes, no);
  }

  // Two outcomes of the same filtered plan on the same corpus, one with the whole span and one
  // without: so also two counts.
  lemma ResultDependsOnWitness() returns (a: seq<Hit>, b: seq<Hit>)
    ensures Yields(GlobalConstraintFilter(SequenceScan(TwoParts()), SameWord()), a, ThreeWords())
    ensures Yields(GlobalConstraintFilter(SequenceScan(TwoParts()), SameWord()), b, ThreeWords())
    ensures Span(0, 3) in SpanSet(a) && Span(0, 3) !in SpanSet(b) && |a| == |b| + 1
  {
    a, b := TwoPartsVary(TwoParts(), SameWord(), ThreeWords(), CutAt(1), CutAt(2));
  }
}
