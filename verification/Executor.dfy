// crates/montre-query/src/executor.rs: execute_node, count_node and the sequence scans.
// The hash sets and maps of the original are iterated in an arbitrary order.
module Executor {
  import opened Core
  import opened Runs
  import opened Sequence
  import opened Engine
  import opened Labelled
  import opened Align
  import opened Ast
  import opened Plan
  import opened Hits
  import opened Constraints
  import opened Outcomes

  // bitmap.iter(): the positions in ascending order.
  method Ascending(s: set<nat>) returns (r: seq<nat>)
    ensures StrictlySorted(r) && forall p :: p in r <==> p in s
  {
    r := [];
    var todo := s;
    while todo != {}
      invariant todo <= s && StrictlySorted(r)
      invariant forall p :: p in r <==> p in s - todo
    {
      var p :| p in todo;
      r := InsertSorted(r, p);
      todo := todo - {p};
    }
  }

  method PositionsToHits(s: set<nat>) returns (hs: seq<Hit>)
    ensures Tokens(hs, s)
  {
    var ps := Ascending(s);
    hs := TokenHits(ps);
    TokenHitsDeliver(ps, s);
  }

  // All positions of the values a matcher accepts.
  method RegexPositions(c: Corpus, layer: string, matcher: string -> bool) returns (ps: set<nat>)
    ensures ps == RegexSet(c, layer, matcher)
  {
    ps := {};
    if layer !in c.inverted {
      return;
    }
    var values := c.inverted[layer];
    var todo := values.Keys;
    while todo != {}
      invariant todo <= values.Keys
      invariant forall p :: p in ps <==> exists v :: v in values.Keys - todo && matcher(v) && p in values[v]
    {
      var v :| v in todo;
      if matcher(v) {
        ps := ps + values[v];
      }
      todo := todo - {v};
    }
  }

  method StartsOf(hs: seq<Hit>) returns (ps: set<nat>)
    ensures ps == HitStarts(hs)
  {
    ps := set h | h in hs :: h.span.start;
    forall p | p in ps
      ensures p in Starts(SpanSet(hs))
    {
      var h :| h in hs && h.span.start == p;
      assert h.span in SpanSet(hs);
    }
    forall p | p in Starts(SpanSet(hs))
      ensures p in ps
    {
      var s :| s in SpanSet(hs) && s.start == p;
    }
  }

  // ---------------------------------------------------------------------------------
  // Nodes that only filter the hits of another node.

  method FilterConstraints(r: Result<seq<Hit>>, gs: seq<GlobalConstraint>, c: Corpus) returns (out: Result<seq<Hit>>)
    ensures out.Ok? <==> r.Ok?
    ensures r.Ok? ==> Kept(out.value, r.value, Meeting(c, gs)) && (StrictHits(r.value) ==> StrictHits(out.value))
  {
    if r.Err? {
      return Err;
    }
    var keys := CollectAttrKeys(gs);
    var kept := Filter(r.value, (h: Hit) => EvaluateConstraints(c, h, gs, keys));
    out := Ok(kept);
    forall h: Hit
      ensures EvaluateConstraints(c, h, gs, keys) <==> SatisfiesAll(c, h, gs)
    {
      EvaluationIsDirect(c, h, gs, keys);
    }
  }

  method FilterSpans(r: Result<seq<Hit>>, layer: string, c: Corpus) returns (out: Result<seq<Hit>>)
    requires ValidCorpus(c)
    ensures out.Ok? <==> r.Ok?
    ensures r.Ok? ==> Kept(out.value, r.value, InSpans(c, layer)) && (StrictHits(r.value) ==> StrictHits(out.value))
  {
    if r.Err? || layer !in c.spans {
      return r;
    }
    var spans := c.spans[layer];
    var kept := Filter(r.value, (h: Hit) =>
      var found := SpanContaining(spans, h.span.start);
      found.Some? && h.span.end <= spans[found.value].end);
    out := Ok(kept);
    forall h | h in r.value
      ensures h in kept <==> InsideOne(spans, h.span)
    {
      var found := SpanContaining(spans, h.span.start);
      if i :| 0 <= i < |spans| && spans[i].start <= h.span.start < spans[i].end && h.span.end <= spans[i].end {
        DocUnique(spans, i, found.value, h.span.start);
      }
    }
  }

  // The document that a span lies in, as both document filters compute it.
  function DocumentOf(docs: seq<Span>, s: Span): (r: Option<nat>)
    requires Ordered(docs)
    ensures r.Some? ==>
      r.value < |docs| && docs[r.value].start <= s.start < docs[r.value].end && s.end <= docs[r.value].end
    ensures forall d: nat :: d < |docs| && docs[d].start <= s.start < docs[d].end && s.end <= docs[d].end ==>
      r == Some(d)
  {
    var found := SpanContaining(docs, s.start);
    assert forall d: nat :: d < |docs| && docs[d].start <= s.start < docs[d].end ==> found == Some(d) by {
      forall d: nat | d < |docs| && docs[d].start <= s.start < docs[d].end
        ensures found == Some(d)
      {
        DocUnique(docs, d, found.value, s.start);
      }
    }
    if found.Some? && s.end <= docs[found.value].end then found else None
  }

  ghost predicate Named(cs: seq<Component>, names: seq<string>, k: Component) {
    exists name :: name in names && FindComponent(cs, name) == Some(k)
  }

  method ComponentsNamed(cs: seq<Component>, names: seq<string>) returns (r: seq<Component>)
    ensures forall k :: k in r <==> Named(cs, names, k)
  {
    r := [];
    for i := 0 to |names|
      invariant forall k :: k in r <==> Named(cs, names[..i], k)
    {
      assert names[..i + 1] == names[..i] + [names[i]];
      var found := FindComponent(cs, names[i]);
      forall k
        ensures Named(cs, names[..i + 1], k) <==> Named(cs, names[..i], k) || found == Some(k)
      {
        if Named(cs, names[..i], k) {
          var name :| name in names[..i] && FindComponent(cs, name) == Some(k);
          assert name in names[..i + 1];
        }
        assert names[i] in names[..i + 1];
      }
      if found.Some? {
        r := r + [found.value];
      }
    }
    assert names[..|names|] == names;
  }

  predicate InSomeComponent(comps: seq<Component>, docs: seq<Span>, s: Span)
    requires Ordered(docs)
  {
    var d := DocumentOf(docs, s);
    d.Some? && exists k :: k in comps && k.first <= d.value < k.last
  }

  lemma SomeComponentIsIn(c: Corpus, comps: seq<Component>, s: Span, names: seq<string>)
    requires ValidCorpus(c) && "document" in c.spans
    requires forall k :: k in comps <==> Named(c.components, names, k)
    ensures InSomeComponent(comps, c.spans["document"], s) <==> InComponents(c, s, names)
  {
    var docs := c.spans["document"];
    if InComponents(c, s, names) {
      var d: nat, name :| InsideDocument(c, s, d) && name in names && FindComponent(c.components, name).Some?
        && FindComponent(c.components, name).value.first <= d < FindComponent(c.components, name).value.last;
      assert Named(c.components, names, FindComponent(c.components, name).value);
      assert DocumentOf(docs, s) == Some(d);
    }
    if InSomeComponent(comps, docs, s) {
      var d := DocumentOf(docs, s).value;
      var k :| k in comps && k.first <= d < k.last;
      var name :| name in names && FindComponent(c.components, name) == Some(k);
      assert InsideDocument(c, s, d);
    }
  }

  method FilterComponents(r: Result<seq<Hit>>, names: seq<string>, c: Corpus) returns (out: Result<seq<Hit>>)
    requires ValidCorpus(c)
    ensures out.Ok? <==> r.Ok?
    ensures r.Ok? ==> Kept(out.value, r.value, InNamed(c, names)) && (StrictHits(r.value) ==> StrictHits(out.value))
  {
    if r.Err? {
      return Err;
    }
    var comps := ComponentsNamed(c.components, names);
    var kept := [];
    if "document" in c.spans {
      var docs := c.spans["document"];
      if comps != [] {
        kept := Filter(r.value, (h: Hit) => InSomeComponent(comps, docs, h.span));
      }
      forall s: Span
        ensures InSomeComponent(comps, docs, s) <==> InComponents(c, s, names)
      {
        SomeComponentIsIn(c, comps, s, names);
      }
    }
    out := Ok(kept);
    assert forall h :: h in kept <==> h in r.value && InComponents(c, h.span, names);
  }

  method DocumentsNamed(all: seq<string>, names: seq<string>) returns (r: set<nat>)
    ensures forall d: nat :: d in r <==> d < |all| && all[d] in names
  {
    r := {};
    for i := 0 to |all|
      invariant forall d: nat :: d in r <==> d < i && all[d] in names
    {
      if all[i] in names {
        r := r + {i};
      }
    }
  }

  method FilterDocuments(r: Result<seq<Hit>>, names: seq<string>, c: Corpus) returns (out: Result<seq<Hit>>)
    requires ValidCorpus(c)
    ensures out.Ok? <==> r.Ok?
    ensures r.Ok? ==> Kept(out.value, r.value, InTitled(c, names)) && (StrictHits(r.value) ==> StrictHits(out.value))
  {
    if r.Err? {
      return Err;
    }
    var kept := [];
    if "document" in c.spans {
      var docs := c.spans["document"];
      var matching := DocumentsNamed(c.documentNames, names);
      if matching != {} {
        kept := Filter(r.value, (h: Hit) =>
          var d := DocumentOf(docs, h.span);
          d.Some? && d.value in matching);
      }
      forall h | h in r.value
        ensures h in kept <==> InDocuments(c, h.span, names)
      {
        if InDocuments(c, h.span, names) {
          var d: nat :| InsideDocument(c, h.span, d) && d < |c.documentNames| && c.documentNames[d] in names;
          assert d in matching;
        }
        if h in kept {
          var d := DocumentOf(docs, h.span).value;
          assert InsideDocument(c, h.span, d);
        }
      }
    }
    out := Ok(kept);
  }

  method ProjectHits(r: Result<seq<Hit>>, alignment: string, c: Corpus) returns (out: Result<seq<Hit>>)
    requires ValidCorpus(c)
    ensures out.Ok? <==> r.Ok? && Projection(c, alignment).Some?
    ensures out.Ok? ==> StrictHits(out.value) && Projected(out.value, r.value, c, alignment)
  {
    if r.Err? {
      return Err;
    }
    var meta := Projection(c, alignment);
    if meta.None? {
      return Err;
    }
    if !HasProjectionLayers(c, meta.value) {
      assert SpanSet([]) == {};
      return Ok([]);
    }
    var g := ProjectionSetting(c, alignment);
    var spans := seq(|r.value|, i requires 0 <= i < |r.value| => r.value[i].span);
    var targets := ProjectSpans(g, spans);
    var hs := seq(|targets|, i requires 0 <= i < |targets| => Hit(targets[i], []));
    out := Ok(SortHits(hs));
    ProjectionDelivered(g, r.value, spans, targets, hs, out.value, SpanSet(r.value));
  }

  lemma ProjectionDelivered(g: Setting, from: seq<Hit>, spans: seq<Span>, targets: seq<Span>,
                            hs: seq<Hit>, sorted: seq<Hit>, ss: set<Span>)
    requires SpanSet(from) == ss
    requires |spans| == |from| && forall i :: 0 <= i < |from| ==> spans[i] == from[i].span
    requires forall x :: x in targets <==> exists s :: s in spans && Aligned(g, s, x)
    requires |hs| == |targets| && forall i :: 0 <= i < |hs| ==> hs[i] == Hit(targets[i], [])
    requires StrictHits(sorted) && forall h :: h in sorted <==> h in hs
    ensures Delivers(sorted, ProjectionImage(g, ss))
    ensures forall h :: h in sorted ==> h.captures == []
  {
    forall s
      ensures s in spans <==> s in ss
    {
      if s in spans {
        var i :| 0 <= i < |spans| && spans[i] == s;
        assert from[i] in from;
      }
      if s in ss {
        var h :| h in from && h.span == s;
        var i :| 0 <= i < |from| && from[i] == h;
      }
    }
    forall x
      ensures x in SpanSet(sorted) <==> x in targets
    {
      if x in targets {
        var i :| 0 <= i < |targets| && targets[i] == x;
        assert hs[i] in sorted;
      }
      if x in SpanSet(sorted) {
        var h :| h in sorted && h.span == x;
        var i :| 0 <= i < |hs| && hs[i] == h;
      }
    }
    assert SpanSet(sorted) == ProjectionImage(g, ss);
  }

  // ---------------------------------------------------------------------------------
  // From active sets to hits.

  function HitsEndingAt(starts: seq<nat>, e: nat): (r: seq<Hit>)
    ensures forall h :: h in r <==> h.captures == [] && h.span.end == e && h.span.start < e && h.span.start in starts
    ensures NoDup(starts) ==> DistinctSpans(r)
  {
    if starts == [] then []
    else
      var n := |starts| - 1;
      assert starts == starts[..n] + [starts[n]];
      var rest := HitsEndingAt(starts[..n], e);
      if starts[n] < e then rest + [Hit(Span(starts[n], e), [])] else rest
  }

  function LabelledHitsEndingAt(ms: seq<ActiveMatch>, e: nat): (r: seq<Hit>)
    ensures forall h :: h in r <==> h.span.end == e && h.span.start < e && ActiveMatch(h.span.start, h.captures) in ms
    ensures DistinctByStart(ms) ==> DistinctSpans(r)
  {
    if ms == [] then []
    else
      var n := |ms| - 1;
      assert ms == ms[..n] + [ms[n]];
      var rest := LabelledHitsEndingAt(ms[..n], e);
      assert DistinctByStart(ms) ==> forall h :: h in rest ==> h.span.start != ms[n].start;
      if ms[n].start < e then rest + [Hit(Span(ms[n].start, e), ms[n].captures)] else rest
  }

  method CollectUnlabelled(active: Active) returns (hs: seq<Hit>)
    requires DistinctStarts(active)
    ensures DistinctSpans(hs)
    ensures forall h :: h in hs <==>
      h.captures == [] && h.span.start < h.span.end && In(active, h.span.start, h.span.end)
  {
    hs := [];
    var todo := active.Keys;
    while todo != {}
      invariant todo <= active.Keys
      invariant DistinctSpans(hs)
      invariant forall h :: h in hs <==>
        h.captures == [] && h.span.start < h.span.end && h.span.end !in todo && In(active, h.span.start, h.span.end)
    {
      var e :| e in todo;
      todo := todo - {e};
      hs := hs + HitsEndingAt(active[e], e);
    }
  }

  method CollectLabelled(active: LabelledActive) returns (hs: seq<Hit>)
    requires EntriesDistinct(active)
    ensures DistinctSpans(hs)
    ensures forall h :: h in hs <==>
      h.span.start < h.span.end && Holds(active, h.span.end, ActiveMatch(h.span.start, h.captures))
  {
    hs := [];
    var todo := active.Keys;
    while todo != {}
      invariant todo <= active.Keys
      invariant DistinctSpans(hs)
      invariant forall h :: h in hs <==>
        h.span.start < h.span.end && h.span.end !in todo &&
          Holds(active, h.span.end, ActiveMatch(h.span.start, h.captures))
    {
      var e :| e in todo;
      todo := todo - {e};
      hs := hs + LabelledHitsEndingAt(active[e], e);
    }
  }

  predicate HasLabels(steps: seq<SequenceStep>) {
    exists i :: 0 <= i < |steps| && steps[i].capture.Some?
  }

  lemma NoLabelsNoCaptures(steps: seq<SequenceStep>, cs: seq<nat>, k: nat)
    requires !HasLabels(steps) && k <= |steps| && k < |cs|
    ensures CapturesOf(EngineSteps(steps), cs, k) == []
  {
    if k > 0 {
      NoLabelsNoCaptures(steps, cs, k - 1);
    }
  }

  lemma ReachedIsJustified(steps: seq<SequenceStep>, pieces: seq<Piece>, s: nat, e: nat)
    requires |pieces| == |steps| && !HasLabels(steps) && Reach(pieces, |pieces|, s, e)
    ensures Justified(EngineSteps(steps), pieces, |pieces|, e, ActiveMatch(s, []))
  {
    var cs :| Trace(pieces, |pieces|, cs) && cs[0] == s && cs[|pieces|] == e;
    NoLabelsNoCaptures(steps, cs, |steps|);
    assert JustifiedBy(EngineSteps(steps), pieces, |pieces|, e, ActiveMatch(s, []), cs);
  }

  ghost predicate HitsInside(hs: seq<Hit>, lo: nat, hi: nat) {
    forall h :: h in hs ==> lo <= h.span.start < h.span.end <= hi
  }

  // What collecting and sorting an active set gives, for both paths.
  lemma FoundFrom(hs: seq<Hit>, steps: seq<SequenceStep>, lo: nat, hi: nat, pieces: seq<Piece>)
    requires |pieces| == |steps| && StrictHits(hs)
    requires forall h :: h in hs ==> h.span.start < h.span.end && JustifiedIn(h, steps, pieces, lo, hi)
    requires forall s: nat, e: nat :: SeededMatch(Restrict(pieces, lo, hi), s, e) ==> Span(s, e) in SpanSet(hs)
    ensures HitsInside(hs, lo, hi) && Found(hs, steps, pieces, lo, hi)
  {
    var inner := Restrict(pieces, lo, hi);
    forall h | h in hs
      ensures Reach(inner, |steps|, h.span.start, h.span.end)
      ensures lo <= h.span.start && h.span.end <= hi
    {
      var cs :| JustifiedBy(EngineSteps(steps), inner, |steps|, h.span.end, ActiveMatch(h.span.start, h.captures), cs);
      assert Trace(inner, |steps|, cs);
      assert Reach(inner, |steps|, h.span.start, h.span.end);
      ReachInside(inner, |steps|, lo, hi);
    }
    forall x: Span
      ensures x in SpanSet(hs) <==> x in SpansIn(pieces, lo, hi)
    {
      assert x == Span(x.start, x.end);
    }
    assert SpanSet(hs) == SpansIn(pieces, lo, hi);
  }

  method HitsOfUnlabelled(steps: seq<SequenceStep>, runs: seq<seq<Run>>, lo: nat, hi: nat, ghost pieces: seq<Piece>)
    returns (hs: seq<Hit>)
    requires |pieces| == |steps| && !HasLabels(steps)
    requires Prepared(EngineSteps(steps), runs, lo, hi, Restrict(pieces, lo, hi))
    ensures HitsInside(hs, lo, hi) && Found(hs, steps, pieces, lo, hi)
  {
    ghost var inner := Restrict(pieces, lo, hi);
    var active := RunUnlabeled(EngineSteps(steps), runs, lo, hi, inner);
    var unsorted := CollectUnlabelled(active);
    hs := SortHits(unsorted);
    forall h | h in hs
      ensures JustifiedIn(h, steps, pieces, lo, hi)
    {
      ReachedIsJustified(steps, inner, h.span.start, h.span.end);
    }
    forall s: nat, e: nat | SeededMatch(inner, s, e)
      ensures Span(s, e) in SpanSet(hs)
    {
      assert Hit(Span(s, e), []) in hs;
    }
    FoundFrom(hs, steps, lo, hi, pieces);
  }

  method HitsOfLabelled(steps: seq<SequenceStep>, runs: seq<seq<Run>>, lo: nat, hi: nat, ghost pieces: seq<Piece>)
    returns (hs: seq<Hit>)
    requires |pieces| == |steps|
    requires Prepared(EngineSteps(steps), runs, lo, hi, Restrict(pieces, lo, hi))
    ensures HitsInside(hs, lo, hi) && Found(hs, steps, pieces, lo, hi)
  {
    ghost var inner := Restrict(pieces, lo, hi);
    var active := RunLabelled(EngineSteps(steps), runs, lo, hi, inner);
    var unsorted := CollectLabelled(active);
    hs := SortHits(unsorted);
    forall h | h in hs
      ensures JustifiedIn(h, steps, pieces, lo, hi)
    {
      assert Holds(active, h.span.end, ActiveMatch(h.span.start, h.captures));
    }
    forall s: nat, e: nat | SeededMatch(inner, s, e)
      ensures Span(s, e) in SpanSet(hs)
    {
      assert HasStart(active, s, e);
      var m :| Holds(active, e, m) && m.start == s;
      assert Hit(Span(s, e), m.captures) in hs;
    }
    FoundFrom(hs, steps, lo, hi, pieces);
  }

  ghost function SpansBefore(starts: seq<nat>, e: nat): (r: set<Span>)
    ensures forall x :: x in r <==> x.end == e && x.start < e && x.start in starts
  {
    var r := set s: nat | s in starts && s < e :: Span(s, e);
    assert forall x: Span :: x.end == e && x.start < e && x.start in starts ==> x == Span(x.start, e);
    r
  }

  method CountBefore(starts: seq<nat>, e: nat) returns (n: nat)
    requires NoDup(starts)
    ensures n == |SpansBefore(starts, e)|
  {
    n := 0;
    ghost var spans: set<Span> := {};
    for i := 0 to |starts|
      invariant n == |spans|
      invariant forall x :: x in spans <==> x.end == e && x.start < e && x.start in starts[..i]
    {
      assert starts[..i + 1] == starts[..i] + [starts[i]];
      if e > starts[i] {
        assert Span(starts[i], e) !in spans;
        n := n + 1;
        spans := spans + {Span(starts[i], e)};
      }
    }
    assert starts[..|starts|] == starts;
    assert spans == SpansBefore(starts, e);
  }

  // The non-empty spans of an active set.
  ghost function ActiveSpans(active: Active): (r: set<Span>)
    ensures forall x :: x in r <==> x.start < x.end && In(active, x.start, x.end)
  {
    var r := set e, x | e in active && x in SpansBefore(active[e], e) :: x;
    assert forall x: Span :: x.start < x.end && In(active, x.start, x.end) ==> x in SpansBefore(active[x.end], x.end);
    r
  }

  // The count path never builds hits.
  method CountActive(active: Active) returns (n: nat)
    requires DistinctStarts(active)
    ensures n == |ActiveSpans(active)|
  {
    n := 0;
    ghost var spans: set<Span> := {};
    var todo := active.Keys;
    while todo != {}
      invariant todo <= active.Keys
      invariant n == |spans|
      invariant forall x :: x in spans <==> x.start < x.end && x.end !in todo && In(active, x.start, x.end)
    {
      var e :| e in todo;
      var m := CountBefore(active[e], e);
      ghost var more := SpansBefore(active[e], e);
      assert spans !! more;
      n := n + m;
      spans := spans + more;
      todo := todo - {e};
    }
    assert spans == ActiveSpans(active);
  }
}
