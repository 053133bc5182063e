// crates/montre-query/src/executor.rs: find_doc_and_sent, resolve_target_span and the
// projection of hits along alignment edges. A unit is a document of a component together
// with the rank of a complete sentence in that document.
module Align {
  import opened Core

  type UnitId = (nat, nat)

  datatype Component = Component(name: string, first: nat, last: nat)

  ghost predicate StartsIn(s: Span, doc: Span) {
    doc.start <= s.start < doc.end
  }

  ghost predicate InDoc(s: Span, doc: Span) {
    StartsIn(s, doc) && s.end <= doc.end
  }

  // How many of the first i sentences lie completely in the document.
  ghost function CompleteBefore(sents: seq<Span>, doc: Span, i: nat): nat
    requires i <= |sents|
  {
    if i == 0 then 0
    else CompleteBefore(sents, doc, i - 1) + if InDoc(sents[i - 1], doc) then 1 else 0
  }

  ghost predicate Holding(s: Span, doc: Span, span: Span) {
    StartsIn(s, doc) && s.start <= span.start && span.end <= s.end
  }

  // span starts in document d of the component and sentence i is the first of that
  // document to hold it.
  ghost predicate LocatedAt(span: Span, docs: seq<Span>, sents: seq<Span>, comp: Component, d: nat, i: nat) {
    && d < |docs| && docs[d].start <= span.start < docs[d].end && span.end <= docs[d].end
    && comp.first <= d < comp.last
    && i < |sents| && Holding(sents[i], docs[d], span)
    && forall j :: 0 <= j < i ==> !Holding(sents[j], docs[d], span)
  }

  ghost function UnitAt(docs: seq<Span>, sents: seq<Span>, comp: Component, d: nat, i: nat): UnitId
    requires comp.first <= d < |docs| && i <= |sents|
  {
    (d - comp.first, CompleteBefore(sents, docs[d], i))
  }

  // The unit that holds a span.
  ghost predicate Locates(span: Span, docs: seq<Span>, sents: seq<Span>, comp: Component, u: UnitId) {
    exists d: nat, i: nat :: LocatedAt(span, docs, sents, comp, d, i) && u == UnitAt(docs, sents, comp, d, i)
  }

  // Sentence i is the complete sentence of that rank in that document.
  ghost predicate ResolvedAt(u: UnitId, docs: seq<Span>, sents: seq<Span>, comp: Component, i: nat) {
    && comp.first + u.0 < |docs|
    && i < |sents| && InDoc(sents[i], docs[comp.first + u.0])
    && CompleteBefore(sents, docs[comp.first + u.0], i) == u.1
  }

  ghost predicate Resolves(u: UnitId, docs: seq<Span>, sents: seq<Span>, comp: Component, span: Span) {
    exists i: nat :: ResolvedAt(u, docs, sents, comp, i) && span == sents[i]
  }

  lemma CompleteGrows(sents: seq<Span>, doc: Span, i: nat, j: nat)
    requires i <= j <= |sents|
    ensures CompleteBefore(sents, doc, i) <= CompleteBefore(sents, doc, j)
    ensures i < j && InDoc(sents[i], doc) ==> CompleteBefore(sents, doc, i) < CompleteBefore(sents, doc, j)
    decreases j - i
  {
    if i < j {
      CompleteGrows(sents, doc, i + 1, j);
    }
  }

  // No sentence before the first one that starts in the document counts.
  lemma NoneBefore(sents: seq<Span>, doc: Span, i: nat)
    requires i <= |sents| && forall j :: 0 <= j < i ==> sents[j].start < doc.start
    ensures CompleteBefore(sents, doc, i) == 0
  {
    if i > 0 {
      NoneBefore(sents, doc, i - 1);
    }
  }

  lemma DocUnique(docs: seq<Span>, d: nat, d': nat, p: nat)
    requires Ordered(docs) && d < |docs| && d' < |docs|
    requires docs[d].start <= p < docs[d].end && docs[d'].start <= p < docs[d'].end
    ensures d == d'
  {
    assert !(d < d') && !(d' < d);
  }

  lemma LocatesUnique(span: Span, docs: seq<Span>, sents: seq<Span>, comp: Component, u: UnitId, v: UnitId)
    requires Ordered(docs)
    requires Locates(span, docs, sents, comp, u) && Locates(span, docs, sents, comp, v)
    ensures u == v
  {
    var d: nat, i: nat :| LocatedAt(span, docs, sents, comp, d, i) && u == UnitAt(docs, sents, comp, d, i);
    var d': nat, i': nat :| LocatedAt(span, docs, sents, comp, d', i') && v == UnitAt(docs, sents, comp, d', i');
    DocUnique(docs, d, d', span.start);
    assert !(i < i') && !(i' < i);
  }

  lemma ResolvedUnique(u: UnitId, docs: seq<Span>, sents: seq<Span>, comp: Component, i: nat, j: nat)
    requires ResolvedAt(u, docs, sents, comp, i) && ResolvedAt(u, docs, sents, comp, j)
    ensures i == j
  {
    if i < j {
      CompleteGrows(sents, docs[comp.first + u.0], i, j);
    } else if j < i {
      CompleteGrows(sents, docs[comp.first + u.0], j, i);
    }
  }

  // Two units never resolve to the same sentence.
  lemma ResolvesInjective(docs: seq<Span>, sents: seq<Span>, comp: Component, u: UnitId, v: UnitId, span: Span)
    requires Ordered(docs) && Ordered(sents)
    requires Resolves(u, docs, sents, comp, span) && Resolves(v, docs, sents, comp, span)
    ensures u == v
  {
    var i: nat :| ResolvedAt(u, docs, sents, comp, i) && span == sents[i];
    var j: nat :| ResolvedAt(v, docs, sents, comp, j) && span == sents[j];
    SameSentence(sents, i, j);
    ResolvedInjective(docs, sents, comp, u, v, i);
  }

  lemma ResolvedInjective(docs: seq<Span>, sents: seq<Span>, comp: Component, u: UnitId, v: UnitId, i: nat)
    requires Ordered(docs)
    requires ResolvedAt(u, docs, sents, comp, i) && ResolvedAt(v, docs, sents, comp, i)
    ensures u == v
  {
    DocUnique(docs, comp.first + u.0, comp.first + v.0, sents[i].start);
  }

  lemma SameSentence(sents: seq<Span>, i: nat, j: nat)
    requires Ordered(sents) && i < |sents| && j < |sents| && sents[i] == sents[j]
    ensures i == j
  {
    assert !(i < j) && !(j < i);
  }

  // Locating and resolving again gives the sentence that was found, exactly when that
  // sentence does not run over the end of its document.
  lemma ResolveOfLocate(span: Span, docs: seq<Span>, sents: seq<Span>, comp: Component, d: nat, i: nat)
    requires Ordered(docs) && Ordered(sents)
    requires LocatedAt(span, docs, sents, comp, d, i)
    ensures Resolves(UnitAt(docs, sents, comp, d, i), docs, sents, comp, sents[i]) <==> sents[i].end <= docs[d].end
  {
    var u := UnitAt(docs, sents, comp, d, i);
    if sents[i].end <= docs[d].end {
      assert ResolvedAt(u, docs, sents, comp, i);
    }
    if Resolves(u, docs, sents, comp, sents[i]) {
      var j: nat :| ResolvedAt(u, docs, sents, comp, j) && sents[j] == sents[i];
    }
  }

  // Resolving and locating again gives the unit back, exactly when its document belongs
  // to the component.
  lemma LocateOfResolve(u: UnitId, docs: seq<Span>, sents: seq<Span>, comp: Component, span: Span)
    requires Ordered(docs) && Ordered(sents)
    requires Resolves(u, docs, sents, comp, span)
    ensures Locates(span, docs, sents, comp, u) <==> comp.first + u.0 < comp.last
  {
    var i: nat :| ResolvedAt(u, docs, sents, comp, i) && span == sents[i];
    var d := comp.first + u.0;
    if d < comp.last {
      forall j | 0 <= j < i
        ensures !Holding(sents[j], docs[d], span)
      {
        assert sents[j].end <= sents[i].start;
      }
      assert LocatedAt(span, docs, sents, comp, d, i);
    }
    if Locates(span, docs, sents, comp, u) {
      var d': nat, i': nat :| LocatedAt(span, docs, sents, comp, d', i') && u == UnitAt(docs, sents, comp, d', i');
      DocUnique(docs, d, d', span.start);
    }
  }

  lemma SentencesOutside(sents: seq<Span>, doc: Span, first: nat, i: nat)
    requires Ordered(sents) && first <= i < |sents|
    requires forall j :: 0 <= j < first ==> sents[j].start < doc.start
    requires forall j :: first <= j < |sents| ==> doc.start <= sents[j].start
    requires doc.end <= sents[i].start
    ensures forall j :: 0 <= j < first || i <= j < |sents| ==> !StartsIn(sents[j], doc)
  {
    forall j | i <= j < |sents|
      ensures !StartsIn(sents[j], doc)
    {
      assert i < j ==> sents[i].end <= sents[j].start;
    }
  }

  method FindDocAndSent(span: Span, docs: seq<Span>, sents: seq<Span>, comp: Component)
    returns (r: Option<UnitId>)
    requires Ordered(docs) && Ordered(sents)
    ensures r.Some? ==> Locates(span, docs, sents, comp, r.value)
    ensures r.None? ==> forall u :: !Locates(span, docs, sents, comp, u)
  {
    var found := SpanContaining(docs, span.start);
    if found.None? {
      return None;
    }
    var d := found.value;
    forall d': nat, i: nat | LocatedAt(span, docs, sents, comp, d', i)
      ensures d' == d
    {
      DocUnique(docs, d, d', span.start);
    }
    if d < comp.first || d >= comp.last {
      return None;
    }
    var doc := docs[d];
    if span.end > doc.end {
      return None;
    }
    var first := PartitionPoint(sents, (s: Span) => s.start < doc.start, 0, |sents|);
    NoneBefore(sents, doc, first);
    var sentWithinDoc := 0;
    var i := first;
    while i < |sents|
      invariant first <= i <= |sents|
      invariant sentWithinDoc == CompleteBefore(sents, doc, i)
      invariant forall j :: 0 <= j < i ==> !Holding(sents[j], doc, span)
    {
      if sents[i].start >= doc.end {
        SentencesOutside(sents, doc, first, i);
        return None;
      }
      if span.start >= sents[i].start && span.end <= sents[i].end {
        assert LocatedAt(span, docs, sents, comp, d, i);
        return Some((d - comp.first, sentWithinDoc));
      }
      if sents[i].end <= doc.end {
        sentWithinDoc := sentWithinDoc + 1;
      }
      i := i + 1;
    }
    return None;
  }

  method ResolveTargetSpan(u: UnitId, docs: seq<Span>, sents: seq<Span>, comp: Component)
    returns (r: Option<Span>)
    requires Ordered(sents)
    ensures r.Some? ==> Resolves(u, docs, sents, comp, r.value)
    ensures r.None? ==> forall s :: !Resolves(u, docs, sents, comp, s)
  {
    var d := comp.first + u.0;
    if d >= |docs| {
      return None;
    }
    var doc := docs[d];
    var first := PartitionPoint(sents, (s: Span) => s.start < doc.start, 0, |sents|);
    NoneBefore(sents, doc, first);
    var sentCount := 0;
    var i := first;
    while i < |sents|
      invariant first <= i <= |sents|
      invariant sentCount == CompleteBefore(sents, doc, i)
      invariant forall j :: 0 <= j < i ==> !ResolvedAt(u, docs, sents, comp, j)
    {
      if sents[i].start >= doc.end {
        SentencesOutside(sents, doc, first, i);
        assert forall j :: 0 <= j < |sents| ==> !ResolvedAt(u, docs, sents, comp, j);
        return None;
      }
      if sents[i].end <= doc.end {
        if sentCount == u.1 {
          assert ResolvedAt(u, docs, sents, comp, i);
          return Some(sents[i]);
        }
        sentCount := sentCount + 1;
      }
      i := i + 1;
    }
    return None;
  }

  type Edge = (UnitId, UnitId)

  ghost predicate EdgeMapOf(m: map<UnitId, seq<UnitId>>, edges: seq<Edge>) {
    forall u, t :: (u in m && t in m[u]) <==> (u, t) in edges
  }

  method BuildEdgeMap(edges: seq<Edge>) returns (m: map<UnitId, seq<UnitId>>)
    ensures EdgeMapOf(m, edges)
  {
    m := map[];
    for i := 0 to |edges|
      invariant EdgeMapOf(m, edges[..i])
    {
      assert edges[..i + 1] == edges[..i] + [edges[i]];
      var (u, t) := edges[i];
      m := m[u := (if u in m then m[u] else []) + [t]];
    }
    assert edges[..|edges|] == edges;
  }

  // Everything that fixes a projection.
  datatype Setting = Setting(docs: seq<Span>, sourceSents: seq<Span>, targetSents: seq<Span>,
                             source: Component, target: Component, edges: seq<Edge>)

  ghost predicate ValidSetting(g: Setting) {
    Ordered(g.docs) && Ordered(g.sourceSents) && Ordered(g.targetSents)
  }

  // (span, target) is in the relation that the alignment edges induce on spans.
  ghost predicate Aligned(g: Setting, span: Span, target: Span) {
    exists u, t :: AlignedVia(g, span, target, u, t)
  }

  ghost predicate AlignedVia(g: Setting, span: Span, target: Span, u: UnitId, t: UnitId) {
    && Locates(span, g.docs, g.sourceSents, g.source, u)
    && (u, t) in g.edges
    && Resolves(t, g.docs, g.targetSents, g.target, target)
  }

  // The targets of the spans, each once: every source span is located, its edges are
  // followed, and a target unit is resolved the first time it is seen.
  method ProjectSpans(g: Setting, spans: seq<Span>) returns (targets: seq<Span>)
    requires ValidSetting(g)
    ensures NoDup(targets)
    ensures forall x :: x in targets <==> exists s :: s in spans && Aligned(g, s, x)
  {
    var edgeMap := BuildEdgeMap(g.edges);
    targets := [];
    var seen: set<UnitId> := {};
    for i := 0 to |spans|
      invariant SeenTargets(g, seen, targets)
      invariant forall t :: t in seen <==> exists s, u :: s in spans[..i] && Follows(g, s, u, t)
    {
      assert spans[..i + 1] == spans[..i] + [spans[i]];
      var located := FindDocAndSent(spans[i], g.docs, g.sourceSents, g.source);
      ghost var before := seen;
      if located.Some? && located.value in edgeMap {
        targets, seen := VisitAll(g, edgeMap[located.value], targets, seen);
      }
      forall t
        ensures t in seen <==> exists s, u :: s in spans[..i + 1] && Follows(g, s, u, t)
      {
        if located.Some? && (located.value, t) in g.edges {
          assert Follows(g, spans[i], located.value, t);
        }
        if s, u :| s in spans[..i + 1] && Follows(g, s, u, t) {
          if s !in spans[..i] {
            LocatesUnique(s, g.docs, g.sourceSents, g.source, u, located.value);
          }
        }
      }
    }
    assert spans[..|spans|] == spans;
    forall x
      ensures x in targets <==> exists s :: s in spans && Aligned(g, s, x)
    {
      if x in targets {
        var t :| t in seen && Resolves(t, g.docs, g.targetSents, g.target, x);
        var s, u :| s in spans && Follows(g, s, u, t);
        assert AlignedVia(g, s, x, u, t);
      }
      if s :| s in spans && Aligned(g, s, x) {
        var u, t :| AlignedVia(g, s, x, u, t);
        assert Follows(g, s, u, t);
      }
    }
  }

  ghost predicate Follows(g: Setting, s: Span, u: UnitId, t: UnitId) {
    Locates(s, g.docs, g.sourceSents, g.source, u) && (u, t) in g.edges
  }

  // The targets so far are the sentences of the units seen so far.
  ghost predicate SeenTargets(g: Setting, seen: set<UnitId>, targets: seq<Span>) {
    && NoDup(targets)
    && forall x :: x in targets <==> exists t :: t in seen && Resolves(t, g.docs, g.targetSents, g.target, x)
  }

  method VisitAll(g: Setting, ts: seq<UnitId>, targets: seq<Span>, seen: set<UnitId>)
    returns (targets': seq<Span>, seen': set<UnitId>)
    requires ValidSetting(g) && SeenTargets(g, seen, targets)
    ensures SeenTargets(g, seen', targets')
    ensures forall t :: t in seen' <==> t in seen || t in ts
  {
    targets', seen' := targets, seen;
    for i := 0 to |ts|
      invariant SeenTargets(g, seen', targets')
      invariant forall t :: t in seen' <==> t in seen || t in ts[..i]
    {
      assert ts[..i + 1] == ts[..i] + [ts[i]];
      var t := ts[i];
      if t !in seen' {
        var resolved := ResolveTargetSpan(t, g.docs, g.targetSents, g.target);
        SeeOne(g, seen', targets', t, resolved);
        seen' := seen' + {t};
        if resolved.Some? {
          targets' := targets' + [resolved.value];
        }
      }
    }
    assert ts[..|ts|] == ts;
  }

  lemma SeeOne(g: Setting, seen: set<UnitId>, targets: seq<Span>, t: UnitId, resolved: Option<Span>)
    requires ValidSetting(g) && SeenTargets(g, seen, targets) && t !in seen
    requires resolved.Some? ==> Resolves(t, g.docs, g.targetSents, g.target, resolved.value)
    requires resolved.None? ==> forall s :: !Resolves(t, g.docs, g.targetSents, g.target, s)
    ensures SeenTargets(g, seen + {t}, if resolved.Some? then targets + [resolved.value] else targets)
  {
    var targets' := if resolved.Some? then targets + [resolved.value] else targets;
    if resolved.Some? {
      forall t' | t' in seen && Resolves(t', g.docs, g.targetSents, g.target, resolved.value)
        ensures false
      {
        ResolvesInjective(g.docs, g.targetSents, g.target, t, t', resolved.value);
      }
      assert resolved.value !in targets;
    }
    forall x
      ensures x in targets' <==> exists t' :: t' in seen + {t} && Resolves(t', g.docs, g.targetSents, g.target, x)
    {
      if resolved.Some? && Resolves(t, g.docs, g.targetSents, g.target, x) {
        ResolvesSame(g, t, x, resolved.value);
      }
      if x in targets {
        var t' :| t' in seen && Resolves(t', g.docs, g.targetSents, g.target, x);
        assert t' in seen + {t};
      }
    }
  }

  lemma ResolvesSame(g: Setting, t: UnitId, x: Span, y: Span)
    requires Resolves(t, g.docs, g.targetSents, g.target, x)
    requires Resolves(t, g.docs, g.targetSents, g.target, y)
    ensures x == y
  {
    var i: nat :| ResolvedAt(t, g.docs, g.targetSents, g.target, i) && x == g.targetSents[i];
    var j: nat :| ResolvedAt(t, g.docs, g.targetSents, g.target, j) && y == g.targetSents[j];
    ResolvedUnique(t, g.docs, g.targetSents, g.target, i, j);
  }
}
