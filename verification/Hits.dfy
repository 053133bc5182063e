// Hit lists and what the executor promises about them.
module Hits {
  import opened Core
  import opened Runs
  import opened Sequence
  import opened Engine
  import opened Labelled
  import opened Plan
  import opened Ast

  datatype Hit = Hit(span: Span, captures: Captures)

  ghost predicate Before(a: Span, b: Span) {
    a.start < b.start || (a.start == b.start && a.end < b.end)
  }

  // Ordered by (start, end), no span twice.
  ghost predicate StrictHits(hs: seq<Hit>) {
    forall i, j :: 0 <= i < j < |hs| ==> Before(hs[i].span, hs[j].span)
  }

  ghost function SpanSet(hs: seq<Hit>): (r: set<Span>)
    ensures forall h :: h in hs ==> h.span in r
  {
    set h | h in hs :: h.span
  }

  // The list holds exactly these spans, sorted and without duplicates.
  ghost predicate Delivers(hs: seq<Hit>, spans: set<Span>) {
    StrictHits(hs) && SpanSet(hs) == spans
  }

  lemma {:induction false} DeliversCount(hs: seq<Hit>, spans: set<Span>)
    requires Delivers(hs, spans)
    ensures |hs| == |spans|
  {
    if hs != [] {
      var n := |hs| - 1;
      LastDelivered(hs, spans);
      DeliversCount(hs[..n], spans - {hs[n].span});
    }
  }

  // The last hit has the last span, and the others deliver the rest.
  lemma LastDelivered(hs: seq<Hit>, spans: set<Span>)
    requires Delivers(hs, spans) && hs != []
    ensures var n := |hs| - 1;
      && hs[n].span in spans && (forall x :: x in spans && x != hs[n].span ==> Before(x, hs[n].span))
      && Delivers(hs[..n], spans - {hs[n].span})
  {
    var n := |hs| - 1;
    var last := hs[n].span;
    assert hs == hs[..n] + [hs[n]];
    assert forall h :: h in hs[..n] ==> Before(h.span, last);
    assert hs[n] in hs;
    forall x | x in spans && x != last
      ensures x in SpanSet(hs[..n]) && Before(x, last)
    {
      var h :| h in hs && h.span == x;
      assert h in hs[..n];
    }
    assert SpanSet(hs[..n]) == spans - {last};
  }

  // Two lists that deliver the same spans agree position by position.
  lemma {:induction false} DeliversUnique(hs: seq<Hit>, gs: seq<Hit>, spans: set<Span>, i: nat)
    requires Delivers(hs, spans) && Delivers(gs, spans) && i < |hs|
    ensures |hs| == |gs| && hs[i].span == gs[i].span
    decreases |hs|
  {
    DeliversCount(hs, spans);
    DeliversCount(gs, spans);
    LastDelivered(hs, spans);
    LastDelivered(gs, spans);
    var n := |hs| - 1;
    assert hs[n].span == gs[n].span;
    if i < n {
      DeliversUnique(hs[..n], gs[..n], spans - {hs[n].span}, i);
    }
  }

  ghost predicate DistinctSpans(hs: seq<Hit>) {
    forall i, j :: 0 <= i < j < |hs| ==> hs[i].span != hs[j].span
  }

  function InsertHit(hs: seq<Hit>, h: Hit): (r: seq<Hit>)
    requires StrictHits(hs) && forall x :: x in hs ==> x.span != h.span
    ensures StrictHits(r)
    ensures forall x :: x in r <==> x in hs || x == h
  {
    if hs == [] then [h]
    else if h.span.start < hs[0].span.start || (h.span.start == hs[0].span.start && h.span.end < hs[0].span.end) then
      [h] + hs
    else
      var rest := InsertHit(hs[1..], h);
      assert forall x :: x in rest ==> Before(hs[0].span, x.span);
      [hs[0]] + rest
  }

  // sort_by_key on (start, end); the keys are distinct wherever the executor sorts.
  function SortHits(hs: seq<Hit>): (r: seq<Hit>)
    requires DistinctSpans(hs)
    ensures StrictHits(r)
    ensures forall x :: x in r <==> x in hs
  {
    if hs == [] then []
    else
      assert hs == [hs[0]] + hs[1..];
      InsertHit(SortHits(hs[1..]), hs[0])
  }

  // One-token hits at the given positions.
  function TokenHits(ps: seq<nat>): (r: seq<Hit>)
    ensures |r| == |ps|
    ensures forall i :: 0 <= i < |r| ==> r[i] == Hit(Singleton(ps[i]), [])
  {
    seq(|ps|, i requires 0 <= i < |ps| => Hit(Singleton(ps[i]), []))
  }

  lemma TokenHitsDeliver(ps: seq<nat>, s: set<nat>)
    requires StrictlySorted(ps) && forall p :: p in ps <==> p in s
    ensures Delivers(TokenHits(ps), Singletons(s))
  {
    var hs := TokenHits(ps);
    forall x | x in Singletons(s)
      ensures x in SpanSet(hs)
    {
      var i :| 0 <= i < |ps| && ps[i] == x.start;
      assert hs[i] in hs;
    }
  }

  // The captures of a hit come from a genuine cut of the sequence that produced it.
  ghost predicate GenuineCut(steps: seq<SequenceStep>, c: Corpus, h: Hit, cs: seq<nat>) {
    && IsCut(PiecesOf(steps, c), cs)
    && cs[0] == h.span.start && cs[|steps|] == h.span.end
    && h.captures == CapturesOf(EngineSteps(steps), cs, |steps|)
  }

  ghost predicate Genuine(h: Hit, node: PlanNode, c: Corpus)
    decreases node
  {
    match node
    case SequenceScan(steps) => exists cs :: GenuineCut(steps, c, h, cs)
    case Difference(base, _) => Genuine(h, base, c)
    case FilterBySpan(inner, _) => Genuine(h, inner, c)
    case FilterByComponent(inner, _) => Genuine(h, inner, c)
    case FilterByDocument(inner, _) => Genuine(h, inner, c)
    case GlobalConstraintFilter(inner, _) => Genuine(h, inner, c)
    case _ => h.captures == []
  }

  // The result of executing a plan whose selected set is determined.
  ghost predicate Answers(r: Result<seq<Hit>>, node: PlanNode, c: Corpus) {
    match Meaning(node, c)
    case None => r.Err?
    case Some(spans) => r.Ok? && Delivers(r.value, spans) && forall h :: h in r.value ==> Genuine(h, node, c)
  }

  // hits.into_iter().filter(p).collect()
  function Filter(hs: seq<Hit>, p: Hit -> bool): (r: seq<Hit>)
    ensures forall h :: h in r <==> h in hs && p(h)
    ensures StrictHits(hs) ==> StrictHits(r)
    ensures |r| <= |hs|
  {
    if hs == [] then []
    else
      var n := |hs| - 1;
      assert hs == hs[..n] + [hs[n]];
      var rest := Filter(hs[..n], p);
      assert StrictHits(hs) ==> forall h :: h in rest ==> Before(h.span, hs[n].span);
      if p(hs[n]) then rest + [hs[n]] else rest
  }
}
