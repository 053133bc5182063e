// crates/montre-daemon/src/handlers/alignment.rs: the daemon's own projection along an
// alignment, and when it agrees with the query engine's.
module DaemonAlign {
  import opened Core
  import opened Align

  const U32: nat := 0x1_0000_0000

  datatype Target = Target(doc: nat, start: nat, end: nat)

  // One sentence layer, two components, the edges between them.
  datatype Aligner = Aligner(docs: seq<Span>, sents: seq<Span>, source: Component, target: Component, edges: seq<Edge>)

  ghost predicate ValidAligner(a: Aligner) {
    Ordered(a.docs) && Ordered(a.sents) && |a.docs| < U32 && |a.sents| < U32 && a.target.first < U32
  }

  function Before(sents: seq<Span>, p: nat): (k: nat)
    requires Ordered(sents)
    ensures k <= |sents|
    ensures forall i :: 0 <= i < k ==> sents[i].start < p
    ensures forall i :: k <= i < |sents| ==> p <= sents[i].start
  {
    PartitionPoint(sents, (s: Span) => s.start < p, 0, |sents|)
  }

  // first_sentence_of_document and last_sentence_of_document
  function FirstSentence(docs: seq<Span>, sents: seq<Span>, d: nat): Option<nat>
    requires Ordered(sents)
  {
    if d >= |docs| then None
    else
      var first := Before(sents, docs[d].start);
      if first >= |sents| || sents[first].start >= docs[d].end then None else Some(first)
  }

  function LastSentence(docs: seq<Span>, sents: seq<Span>, d: nat): Option<nat>
    requires Ordered(sents)
  {
    if d >= |docs| then None
    else
      var after := Before(sents, docs[d].end);
      if after == 0 || sents[after - 1].start < docs[d].start then None else Some(after - 1)
  }

  function SaturatingAdd(a: nat, b: nat): nat {
    if a + b < U32 then a + b else U32 - 1
  }

  // The sentence that one edge leads to; None is an error reply.
  function TargetOf(a: Aligner, t: UnitId): Option<Target>
    requires Ordered(a.sents)
  {
    var doc := SaturatingAdd(a.target.first, t.0);
    var first := FirstSentence(a.docs, a.sents, doc);
    if first.None? || first.value + t.1 >= |a.sents| then None
    else Some(Target(doc, a.sents[first.value + t.1].start, a.sents[first.value + t.1].end))
  }

  // A target of one of these units, by one of the first n edges.
  ghost predicate Hit(a: Aligner, d: nat, ranks: seq<nat>, edges: seq<Edge>, x: Target)
    requires Ordered(a.sents) && a.source.first <= d
  {
    exists e :: e in edges && e.0.0 == d - a.source.first && e.0.1 in ranks && TargetOf(a, e.1) == Some(x)
  }

  // No edge of these units leads to an error.
  ghost predicate AllFound(a: Aligner, d: nat, ranks: seq<nat>, edges: seq<Edge>)
    requires Ordered(a.sents) && a.source.first <= d
  {
    forall e :: e in edges && e.0.0 == d - a.source.first && e.0.1 in ranks ==> TargetOf(a, e.1).Some?
  }

  predicate Overlaps(s: Span, start: nat, end: nat) {
    s.end > start && s.start < end
  }

  ghost predicate Ascending(ks: seq<nat>) {
    forall i, j :: 0 <= i < j < |ks| ==> ks[i] < ks[j]
  }

  // Edge number e leads from the sentence of this rank in document d to x.
  ghost predicate LeadsTo(a: Aligner, d: nat, k: nat, e: nat, x: Target)
    requires Ordered(a.sents) && a.source.first <= d
  {
    e < |a.edges| && a.edges[e].0 == (d - a.source.first, k) && TargetOf(a, a.edges[e].1) == Some(x)
  }

  // Some edge leads to x before any leads to y, by rank and then by number.
  ghost predicate Earlier(a: Aligner, d: nat, ks: iset<nat>, x: Target, y: Target)
    requires Ordered(a.sents) && a.source.first <= d
  {
    exists k: nat, e: nat :: k in ks && LeadsTo(a, d, k, e, x) &&
      forall l: nat, f: nat :: l in ks && LeadsTo(a, d, l, f, y) ==> k < l || (k == l && e < f)
  }

  ghost predicate InOrder(a: Aligner, d: nat, ks: iset<nat>, xs: seq<Target>)
    requires Ordered(a.sents) && a.source.first <= d
  {
    forall i, j :: 0 <= i < j < |xs| ==> Earlier(a, d, ks, xs[i], xs[j])
  }

  // The same for one rank, from index m on.
  ghost predicate EdgesInOrder(a: Aligner, d: nat, k: nat, xs: seq<Target>, m: nat)
    requires Ordered(a.sents) && a.source.first <= d
  {
    forall i, j :: m <= i < j < |xs| ==> EdgeEarlier(a, d, k, xs[i], xs[j])
  }

  ghost predicate EdgeEarlier(a: Aligner, d: nat, k: nat, x: Target, y: Target)
    requires Ordered(a.sents) && a.source.first <= d
  {
    exists e: nat :: LeadsTo(a, d, k, e, x) && forall f: nat :: LeadsTo(a, d, k, f, y) ==> e < f
  }

  // By one of the first n edges.
  lemma HitLeads(a: Aligner, d: nat, k: nat, n: nat, x: Target)
    requires Ordered(a.sents) && a.source.first <= d && n <= |a.edges|
    ensures Hit(a, d, [k], a.edges[..n], x) <==> exists e: nat :: e < n && LeadsTo(a, d, k, e, x)
  {
    if Hit(a, d, [k], a.edges[..n], x) {
      var edge :| edge in a.edges[..n] && edge.0.0 == d - a.source.first && edge.0.1 in [k] &&
        TargetOf(a, edge.1) == Some(x);
      var e: nat :| e < n && a.edges[..n][e] == edge;
      assert LeadsTo(a, d, k, e, x);
    }
    if e: nat :| e < n && LeadsTo(a, d, k, e, x) {
      assert a.edges[..n][e] == a.edges[e];
    }
  }

  // A target that edge n is the first to lead to comes after those of earlier edges.
  lemma OrderNext(a: Aligner, d: nat, k: nat, n: nat, xs: seq<Target>, m: nat, y: Target)
    requires Ordered(a.sents) && a.source.first <= d && n < |a.edges| && m <= |xs| && EdgesInOrder(a, d, k, xs, m)
    requires forall i :: m <= i < |xs| ==> Hit(a, d, [k], a.edges[..n], xs[i])
    requires !Hit(a, d, [k], a.edges[..n], y)
    ensures EdgesInOrder(a, d, k, xs + [y], m)
  {
    HitLeads(a, d, k, n, y);
    forall i | m <= i < |xs|
      ensures EdgeEarlier(a, d, k, xs[i], y)
    {
      HitLeads(a, d, k, n, xs[i]);
      var e: nat :| e < n && LeadsTo(a, d, k, e, xs[i]);
    }
  }

  // Ranks within the document of the sentences that overlap the source.
  method OverlappingSentences(sents: seq<Span>, first: nat, last: nat, start: nat, end: nat) returns (ranks: seq<nat>)
    requires first <= last < |sents|
    ensures forall k: nat :: k in ranks <==> first + k <= last && Overlaps(sents[first + k], start, end)
    ensures Ascending(ranks)
  {
    ranks := [];
    for i := first to last + 1
      invariant Ascending(ranks) && forall j :: 0 <= j < |ranks| ==> first + ranks[j] < i
      invariant forall k: nat :: k in ranks <==> first + k < i && Overlaps(sents[first + k], start, end)
    {
      if sents[i].end > start && sents[i].start < end {
        ranks := ranks + [i - first];
      }
    }
  }

  lemma NewAreHits(a: Aligner, d: nat, k: nat, n: nat, targets: seq<Target>, out: seq<Target>)
    requires Ordered(a.sents) && a.source.first <= d && n <= |a.edges| && NoDup(out) && targets <= out
    requires forall x :: x in out <==> x in targets || Hit(a, d, [k], a.edges[..n], x)
    ensures forall i :: |targets| <= i < |out| ==> Hit(a, d, [k], a.edges[..n], out[i])
  {
    forall i | |targets| <= i < |out|
      ensures Hit(a, d, [k], a.edges[..n], out[i])
    {
      assert out[i] in out;
      forall j | 0 <= j < |targets| ensures targets[j] != out[i] { assert out[j] == targets[j]; }
    }
  }

  // The targets of one unit.
  method FollowEdges(a: Aligner, d: nat, rank: nat, targets: seq<Target>) returns (r: Result<seq<Target>>)
    requires Ordered(a.sents) && a.source.first <= d && NoDup(targets)
    ensures r.Ok? <==> AllFound(a, d, [rank], a.edges)
    ensures r.Ok? ==> NoDup(r.value) && forall x :: x in r.value <==> x in targets || Hit(a, d, [rank], a.edges, x)
    ensures r.Ok? ==> targets <= r.value && EdgesInOrder(a, d, rank, r.value, |targets|)
  {
    var out := targets;
    for i := 0 to |a.edges|
      invariant targets <= out && EdgesInOrder(a, d, rank, out, |targets|)
      invariant NoDup(out) && AllFound(a, d, [rank], a.edges[..i])
      invariant forall x :: x in out <==> x in targets || Hit(a, d, [rank], a.edges[..i], x)
    {
      var e := a.edges[i];
      assert a.edges[..i + 1] == a.edges[..i] + [e];
      if e.0 == (d - a.source.first, rank) {
        var t := TargetOf(a, e.1);
        if t.None? {
          assert e in a.edges;
          return Err;
        }
        if t.value !in out {
          NewAreHits(a, d, rank, i, targets, out);
          OrderNext(a, d, rank, i, out, |targets|, t.value);
          out := out + [t.value];
        }
      }
    }
    assert a.edges[..|a.edges|] == a.edges;
    r := Ok(out);
  }

  // No target of an overlapping sentence is missing.
  ghost predicate NoneMissing(a: Aligner, d: nat, start: nat, end: nat)
    requires Ordered(a.sents) && a.source.first <= d
  {
    forall k: nat :: Overlapping(a, d, k, start, end) ==> AllFound(a, d, [k], a.edges)
  }

  // A target of an overlapping sentence.
  ghost predicate Reached(a: Aligner, d: nat, start: nat, end: nat, x: Target)
    requires Ordered(a.sents) && a.source.first <= d
  {
    exists k: nat :: Overlapping(a, d, k, start, end) && Hit(a, d, [k], a.edges, x)
  }

  // The ranks of the overlapping sentences.
  ghost function OverlapRanks(a: Aligner, d: nat, start: nat, end: nat): iset<nat>
    requires Ordered(a.sents)
  {
    iset k: nat | Overlapping(a, d, k, start, end)
  }

  // What the reply is: an error where the document is not one of the source component or some
  // target is missing, and otherwise the targets of all overlapping sentences, each once, in
  // the order of the sentences and, for one sentence, of the edges.
  ghost predicate Replied(a: Aligner, d: nat, start: nat, end: nat, r: Result<seq<Target>>)
    requires Ordered(a.sents)
  {
    && (r.Ok? <==> Inside(a, d) && NoneMissing(a, d, start, end))
    && (r.Ok? ==> NoDup(r.value) && forall x :: x in r.value <==> Reached(a, d, start, end, x))
    && (r.Ok? ==> InOrder(a, d, OverlapRanks(a, d, start, end), r.value))
  }

  // project_alignment, from the point where the alignment and its components are known.
  method ProjectAlignment(a: Aligner, d: nat, start: nat, end: nat) returns (r: Result<seq<Target>>)
    requires ValidAligner(a)
    ensures Replied(a, d, start, end, r)
  {
    if d < a.source.first || d >= a.source.last {
      return Err;
    }
    var first := FirstSentence(a.docs, a.sents, d);
    var last := LastSentence(a.docs, a.sents, d);
    if first.None? || last.None? {
      return Err;
    }
    FirstNotAfterLast(a, d);
    var ranks := OverlappingSentences(a.sents, first.value, last.value, start, end);
    assert forall k: nat :: k in ranks <==> Overlapping(a, d, k, start, end);
    r := FollowAll(a, d, ranks);
    assert RankSet(ranks) == OverlapRanks(a, d, start, end);
  }

  ghost function RankSet(ranks: seq<nat>): iset<nat> {
    iset k | k in ranks
  }

  // Targets found under the first i ranks come before those that only rank i brings.
  lemma OlderFirst(a: Aligner, d: nat, ranks: seq<nat>, i: nat, x: Target, y: Target)
    requires Ordered(a.sents) && a.source.first <= d && i < |ranks| && Ascending(ranks)
    requires exists k :: k in ranks[..i] && Hit(a, d, [k], a.edges, x)
    requires !exists k :: k in ranks[..i] && Hit(a, d, [k], a.edges, y)
    ensures Earlier(a, d, RankSet(ranks), x, y)
  {
    var k :| k in ranks[..i] && Hit(a, d, [k], a.edges, x);
    assert a.edges[..|a.edges|] == a.edges;
    HitLeads(a, d, k, |a.edges|, x);
    var e: nat :| LeadsTo(a, d, k, e, x);
    forall l: nat, f: nat | l in RankSet(ranks) && LeadsTo(a, d, l, f, y)
      ensures k < l
    {
      HitLeads(a, d, l, |a.edges|, y);
      assert l !in ranks[..i];
    }
  }

  lemma SameRankOrder(a: Aligner, d: nat, ranks: seq<nat>, i: nat, x: Target, y: Target)
    requires Ordered(a.sents) && a.source.first <= d && i < |ranks| && Ascending(ranks)
    requires EdgeEarlier(a, d, ranks[i], x, y)
    requires !exists k :: k in ranks[..i] && Hit(a, d, [k], a.edges, y)
    ensures Earlier(a, d, RankSet(ranks), x, y)
  {
    var k := ranks[i];
    var e: nat :| LeadsTo(a, d, k, e, x) && forall f: nat :: LeadsTo(a, d, k, f, y) ==> e < f;
    assert k in RankSet(ranks) && a.edges[..|a.edges|] == a.edges;
    forall l: nat, f: nat | l in RankSet(ranks) && LeadsTo(a, d, l, f, y)
      ensures k < l || (k == l && e < f)
    {
      HitLeads(a, d, l, |a.edges|, y);
      assert l !in ranks[..i];
    }
  }

  // One rank more.
  lemma RankNext(a: Aligner, d: nat, ranks: seq<nat>, i: nat, xs: seq<Target>, ys: seq<Target>)
    requires Ordered(a.sents) && a.source.first <= d && i < |ranks| && Ascending(ranks)
    requires NoDup(ys) && xs <= ys && InOrder(a, d, RankSet(ranks), xs) && EdgesInOrder(a, d, ranks[i], ys, |xs|)
    requires forall x :: x in xs <==> exists k :: k in ranks[..i] && Hit(a, d, [k], a.edges, x)
    ensures InOrder(a, d, RankSet(ranks), ys)
  {
    forall p, q | 0 <= p < q < |ys|
      ensures Earlier(a, d, RankSet(ranks), ys[p], ys[q])
    {
      if q < |xs| {
        assert xs[p] == ys[p] && xs[q] == ys[q];
      } else {
        NotBefore(xs, ys, q);
        if p < |xs| {
          assert xs[p] == ys[p] && xs[p] in xs;
          OlderFirst(a, d, ranks, i, ys[p], ys[q]);
        } else {
          SameRankOrder(a, d, ranks, i, ys[p], ys[q]);
        }
      }
    }
  }

  lemma NotBefore(xs: seq<Target>, ys: seq<Target>, q: nat)
    requires NoDup(ys) && xs <= ys && |xs| <= q < |ys|
    ensures ys[q] !in xs
  {
    forall j | 0 <= j < |xs|
      ensures xs[j] != ys[q]
    {
      assert xs[j] == ys[j];
    }
  }

  method FollowAll(a: Aligner, d: nat, ranks: seq<nat>) returns (r: Result<seq<Target>>)
    requires Ordered(a.sents) && a.source.first <= d && Ascending(ranks)
    ensures r.Ok? <==> forall k :: k in ranks ==> AllFound(a, d, [k], a.edges)
    ensures r.Ok? ==> NoDup(r.value) && forall x :: x in r.value <==>
      exists k :: k in ranks && Hit(a, d, [k], a.edges, x)
    ensures r.Ok? ==> InOrder(a, d, RankSet(ranks), r.value)
  {
    var targets: seq<Target> := [];
    for i := 0 to |ranks|
      invariant NoDup(targets) && InOrder(a, d, RankSet(ranks), targets)
      invariant forall k :: k in ranks[..i] ==> AllFound(a, d, [k], a.edges)
      invariant forall x :: x in targets <==> exists k :: k in ranks[..i] && Hit(a, d, [k], a.edges, x)
    {
      assert ranks[..i + 1] == ranks[..i] + [ranks[i]];
      var next := FollowEdges(a, d, ranks[i], targets);
      if next.Err? {
        assert ranks[i] in ranks;
        return Err;
      }
      RankNext(a, d, ranks, i, targets, next.value);
      targets := next.value;
    }
    assert ranks[..|ranks|] == ranks;
    r := Ok(targets);
  }

  lemma EarlierOneWay(a: Aligner, d: nat, ks: iset<nat>, x: Target, y: Target)
    requires Ordered(a.sents) && a.source.first <= d && Earlier(a, d, ks, x, y)
    ensures !Earlier(a, d, ks, y, x)
  {
  }

  lemma {:induction false} OrderIsOne(a: Aligner, d: nat, ks: iset<nat>, xs: seq<Target>, ys: seq<Target>)
    requires Ordered(a.sents) && a.source.first <= d && NoDup(xs) && NoDup(ys)
    requires InOrder(a, d, ks, xs) && InOrder(a, d, ks, ys) && forall x :: x in xs <==> x in ys
    ensures xs == ys
  {
    if xs == [] {
      NonEmptyHas(ys);
    } else {
      assert xs[0] in ys && ys[0] in xs;
      if xs[0] != ys[0] {
        assert Earlier(a, d, ks, xs[0], ys[0]) && Earlier(a, d, ks, ys[0], xs[0]);
        EarlierOneWay(a, d, ks, xs[0], ys[0]);
      }
      RestHas(xs);
      RestHas(ys);
      OrderIsOne(a, d, ks, xs[1..], ys[1..]);
    }
  }

  lemma NonEmptyHas(ys: seq<Target>)
    ensures ys != [] ==> exists y :: y in ys
  {
    if ys != [] {
      assert ys[0] in ys;
    }
  }

  lemma RestHas(xs: seq<Target>)
    requires NoDup(xs) && xs != []
    ensures forall x :: x in xs[1..] <==> x in xs && x != xs[0]
  {
    var rest := xs[1..];
    forall x | x in rest
      ensures x in xs && x != xs[0]
    {
      var i :| 0 <= i < |rest| && rest[i] == x;
      assert xs[i + 1] == x;
    }
    forall x | x in xs && x != xs[0]
      ensures x in rest
    {
      var i :| 0 <= i < |xs| && xs[i] == x;
      assert rest[i - 1] == x;
    }
  }

  // There is only one such reply.
  lemma ReplyOnce(a: Aligner, d: nat, start: nat, end: nat, r: Result<seq<Target>>, s: Result<seq<Target>>)
    requires Ordered(a.sents) && Replied(a, d, start, end, r) && Replied(a, d, start, end, s)
    ensures r == s
  {
    if r.Ok? {
      OrderIsOne(a, d, OverlapRanks(a, d, start, end), r.value, s.value);
    }
  }

  // The document is in the source component and has sentences.
  ghost predicate Inside(a: Aligner, d: nat)
    requires Ordered(a.sents)
  {
    a.source.first <= d < a.source.last && FirstSentence(a.docs, a.sents, d).Some? &&
      LastSentence(a.docs, a.sents, d).Some?
  }

  // The sentence of this rank in document d overlaps the source.
  ghost predicate Overlapping(a: Aligner, d: nat, k: nat, start: nat, end: nat)
    requires Ordered(a.sents)
  {
    var first, last := FirstSentence(a.docs, a.sents, d), LastSentence(a.docs, a.sents, d);
    first.Some? && last.Some? && first.value + k <= last.value < |a.sents| &&
      Overlaps(a.sents[first.value + k], start, end)
  }

  lemma FirstNotAfterLast(a: Aligner, d: nat)
    requires ValidAligner(a) && FirstSentence(a.docs, a.sents, d).Some? && LastSentence(a.docs, a.sents, d).Some?
    ensures FirstSentence(a.docs, a.sents, d).value <= LastSentence(a.docs, a.sents, d).value < |a.sents|
  {
  }

  // ---------------------------------------------------------------------------------
  // Against the query engine's projection, which counts complete sentences.

  function SettingOf(a: Aligner): Setting {
    Setting(a.docs, a.sents, a.sents, a.source, a.target, a.edges)
  }

  // Up to any sentence that starts in the document, both count the same.
  lemma {:induction false} RanksAgree(sents: seq<Span>, doc: Span, first: nat, i: nat)
    requires Ordered(sents) && first <= i < |sents| && StartsIn(sents[i], doc)
    requires first == Before(sents, doc.start)
    ensures CompleteBefore(sents, doc, i) == i - first
  {
    if i == first {
      NoneBefore(sents, doc, i);
    } else {
      assert sents[i - 1].end <= sents[i].start;
      RanksAgree(sents, doc, first, i - 1);
    }
  }

  lemma ResolvedIsCounted(a: Aligner, t: UnitId, i: nat)
    requires ValidAligner(a) && ResolvedAt(t, a.docs, a.sents, a.target, i)
    ensures TargetOf(a, t) == Some(Target(a.target.first + t.0, a.sents[i].start, a.sents[i].end))
  {
    var doc := a.docs[a.target.first + t.0];
    var first := Before(a.sents, doc.start);
    assert first <= i;
    assert first < i ==> a.sents[first].end <= a.sents[i].start;
    RanksAgree(a.sents, doc, first, i);
  }

  // An edge that is out of range is an error reply, or leads to a sentence that is not a
  // complete sentence of the document it is reported for.
  lemma OutOfRange(a: Aligner, t: UnitId)
    requires ValidAligner(a) && forall i: nat :: !ResolvedAt(t, a.docs, a.sents, a.target, i)
    requires TargetOf(a, t).Some? && a.target.first + t.0 < U32
    ensures a.target.first + t.0 < |a.docs|
    ensures !InDoc(Span(TargetOf(a, t).value.start, TargetOf(a, t).value.end), a.docs[a.target.first + t.0])
  {
    var d := a.target.first + t.0;
    var first := FirstSentence(a.docs, a.sents, d).value;
    var i := first + t.1;
    if InDoc(a.sents[i], a.docs[d]) {
      RanksAgree(a.sents, a.docs[d], first, i);
      assert ResolvedAt(t, a.docs, a.sents, a.target, i);
    }
  }

  // For a non-empty hit inside one sentence, that sentence is the only one that overlaps.
  lemma OnlyOneOverlaps(a: Aligner, hit: Span, d: nat, i: nat, k: nat)
    requires ValidAligner(a) && hit.start < hit.end && LocatedAt(hit, a.docs, a.sents, a.source, d, i)
    ensures Inside(a, d) && FirstSentence(a.docs, a.sents, d).value <= i
    ensures Overlapping(a, d, k, hit.start, hit.end) <==> FirstSentence(a.docs, a.sents, d).value + k == i
  {
    var doc := a.docs[d];
    var first, after := Before(a.sents, doc.start), Before(a.sents, doc.end);
    assert first <= i < after;
    assert first < i ==> a.sents[first].end <= a.sents[i].start;
    assert i < after - 1 ==> a.sents[i].end <= a.sents[after - 1].start;
    var j := first + k;
    if j < |a.sents| && j != i {
      assert j < i ==> a.sents[j].end <= a.sents[i].start;
      assert i < j ==> a.sents[i].end <= a.sents[j].start;
    }
  }

  // Every edge of this unit is in range.
  ghost predicate InRange(a: Aligner, u: UnitId) {
    forall t :: (u, t) in a.edges ==> exists i: nat :: ResolvedAt(t, a.docs, a.sents, a.target, i)
  }

  // The sentence that overlaps the hit is the one that holds it, and has the rank of its unit.
  lemma HitUnit(a: Aligner, hit: Span, d: nat, i: nat, u: UnitId)
    requires ValidAligner(a) && hit.start < hit.end && LocatedAt(hit, a.docs, a.sents, a.source, d, i)
    requires u == UnitAt(a.docs, a.sents, a.source, d, i)
    ensures Inside(a, d) && a.source.first <= d && u.0 == d - a.source.first
    ensures Locates(hit, a.docs, a.sents, a.source, u)
    ensures forall k: nat :: Overlapping(a, d, k, hit.start, hit.end) <==> k == u.1
  {
    var first := FirstSentence(a.docs, a.sents, d);
    OnlyOneOverlaps(a, hit, d, i, 0);
    RanksAgree(a.sents, a.docs[d], first.value, i);
    assert u == (d - a.source.first, i - first.value);
    forall k: nat
      ensures Overlapping(a, d, k, hit.start, hit.end) <==> k == u.1
    {
      OnlyOneOverlaps(a, hit, d, i, k);
    }
  }

  // The engine projects the hit to this span of this document.
  ghost predicate EngineTarget(a: Aligner, hit: Span, u: UnitId, x: Target) {
    exists t :: AlignedVia(SettingOf(a), hit, Span(x.start, x.end), u, t) && x.doc == a.target.first + t.0
  }

  // For a non-empty hit inside one sentence whose edges are in range, the daemon finds no
  // error, and its targets are exactly the spans that the query engine projects the hit to,
  // each under the number of its document.
  lemma ProjectionsAgree(a: Aligner, hit: Span, d: nat, i: nat, x: Target)
    requires ValidAligner(a) && hit.start < hit.end && LocatedAt(hit, a.docs, a.sents, a.source, d, i)
    requires InRange(a, UnitAt(a.docs, a.sents, a.source, d, i))
    ensures Inside(a, d) && NoneMissing(a, d, hit.start, hit.end)
    ensures Reached(a, d, hit.start, hit.end, x) <==> EngineTarget(a, hit, UnitAt(a.docs, a.sents, a.source, d, i), x)
  {
    var u := UnitAt(a.docs, a.sents, a.source, d, i);
    HitUnit(a, hit, d, i, u);
    EdgesInRange(a, u);
    UnitHits(a, d, u, x);
    SameTargets(a, hit, u, x);
  }

  lemma EdgesInRange(a: Aligner, u: UnitId)
    requires ValidAligner(a) && InRange(a, u)
    ensures forall t :: (u, t) in a.edges ==> Agreed(a, t)
  {
    forall t | (u, t) in a.edges
      ensures Agreed(a, t)
    {
      var m: nat :| ResolvedAt(t, a.docs, a.sents, a.target, m);
      ResolvedIsCounted(a, t, m);
      TargetResolves(a, t, m);
    }
  }

  lemma TargetIsAligned(a: Aligner, hit: Span, u: UnitId, x: Target, t: UnitId)
    requires ValidAligner(a) && Locates(hit, a.docs, a.sents, a.source, u) && Agreed(a, t)
    ensures (u, t) in a.edges && TargetOf(a, t) == Some(x) <==>
      AlignedVia(SettingOf(a), hit, Span(x.start, x.end), u, t) && x.doc == a.target.first + t.0
  {
  }

  lemma SameTargets(a: Aligner, hit: Span, u: UnitId, x: Target)
    requires ValidAligner(a) && Locates(hit, a.docs, a.sents, a.source, u)
    requires forall t :: (u, t) in a.edges ==> Agreed(a, t)
    ensures (exists t :: (u, t) in a.edges && TargetOf(a, t) == Some(x)) <==> EngineTarget(a, hit, u, x)
  {
    if t :| AlignedVia(SettingOf(a), hit, Span(x.start, x.end), u, t) && x.doc == a.target.first + t.0 {
      TargetIsAligned(a, hit, u, x, t);
    }
    if t :| (u, t) in a.edges && TargetOf(a, t) == Some(x) {
      TargetIsAligned(a, hit, u, x, t);
    }
  }
  // What an edge in range leads to, for both projections.
  ghost predicate Agreed(a: Aligner, t: UnitId)
    requires Ordered(a.sents)
  {
    && TargetOf(a, t).Some? && TargetOf(a, t).value.doc == a.target.first + t.0
    && forall s :: Resolves(t, a.docs, a.sents, a.target, s) <==>
      s == Span(TargetOf(a, t).value.start, TargetOf(a, t).value.end)
  }

  lemma TargetResolves(a: Aligner, t: UnitId, m: nat)
    requires ValidAligner(a) && ResolvedAt(t, a.docs, a.sents, a.target, m)
    requires TargetOf(a, t) == Some(Target(a.target.first + t.0, a.sents[m].start, a.sents[m].end))
    ensures Agreed(a, t)
  {
    forall s
      ensures Resolves(t, a.docs, a.sents, a.target, s) <==> s == a.sents[m]
    {
      if Resolves(t, a.docs, a.sents, a.target, s) {
        var j: nat :| ResolvedAt(t, a.docs, a.sents, a.target, j) && s == a.sents[j];
        ResolvedUnique(t, a.docs, a.sents, a.target, j, m);
      }
    }
  }

  lemma EdgeOfUnit(e: Edge, u: UnitId)
    ensures e.0.0 == u.0 && e.0.1 in [u.1] <==> e == (u, e.1)
  {
  }

  lemma UnitHit(a: Aligner, d: nat, u: UnitId, x: Target)
    requires Ordered(a.sents) && a.source.first <= d && u.0 == d - a.source.first
    ensures Hit(a, d, [u.1], a.edges, x) <==> exists t :: (u, t) in a.edges && TargetOf(a, t) == Some(x)
  {
    if Hit(a, d, [u.1], a.edges, x) {
      var e :| e in a.edges && e.0.0 == d - a.source.first && e.0.1 in [u.1] && TargetOf(a, e.1) == Some(x);
      EdgeOfUnit(e, u);
      assert (u, e.1) in a.edges;
    }
    if t :| (u, t) in a.edges && TargetOf(a, t) == Some(x) {
      EdgeOfUnit((u, t), u);
    }
  }

  lemma UnitFound(a: Aligner, d: nat, u: UnitId)
    requires Ordered(a.sents) && a.source.first <= d && u.0 == d - a.source.first
    ensures AllFound(a, d, [u.1], a.edges) <==> forall t :: (u, t) in a.edges ==> TargetOf(a, t).Some?
  {
    if AllFound(a, d, [u.1], a.edges) {
      forall t | (u, t) in a.edges
        ensures TargetOf(a, t).Some?
      {
        EdgeOfUnit((u, t), u);
      }
    } else {
      var e :| e in a.edges && e.0.0 == d - a.source.first && e.0.1 in [u.1] && !TargetOf(a, e.1).Some?;
      EdgeOfUnit(e, u);
      assert (u, e.1) in a.edges;
    }
  }

  lemma UnitHits(a: Aligner, d: nat, u: UnitId, x: Target)
    requires Ordered(a.sents) && a.source.first <= d && u.0 == d - a.source.first
    ensures Hit(a, d, [u.1], a.edges, x) <==> exists t :: (u, t) in a.edges && TargetOf(a, t) == Some(x)
    ensures AllFound(a, d, [u.1], a.edges) <==> forall t :: (u, t) in a.edges ==> TargetOf(a, t).Some?
  {
    UnitHit(a, d, u, x);
    UnitFound(a, d, u);
  }

  // ---------------------------------------------------------------------------------
  // Exactly when the reply is the engine's projection.

  // No error, and the same targets.
  ghost predicate SameReply(a: Aligner, hit: Span, u: UnitId, r: Result<seq<Target>>) {
    r.Ok? && forall x :: x in r.value <==> EngineTarget(a, hit, u, x)
  }

  lemma ResolvesInDoc(t: UnitId, docs: seq<Span>, sents: seq<Span>, comp: Component, x: Span)
    requires Resolves(t, docs, sents, comp, x)
    ensures comp.first + t.0 < |docs| && InDoc(x, docs[comp.first + t.0])
  {
    var m: nat :| ResolvedAt(t, docs, sents, comp, m) && x == sents[m];
  }

  // A span that the engine projects to is a complete sentence of its document.
  lemma EngineInDoc(a: Aligner, hit: Span, u: UnitId, x: Target)
    requires ValidAligner(a) && EngineTarget(a, hit, u, x)
    ensures x.doc < |a.docs| && InDoc(Span(x.start, x.end), a.docs[x.doc])
  {
    var t :| AlignedVia(SettingOf(a), hit, Span(x.start, x.end), u, t) && x.doc == a.target.first + t.0;
    ResolvesInDoc(t, a.docs, a.sents, a.target, Span(x.start, x.end));
  }

  lemma TargetDoc(a: Aligner, t: UnitId)
    requires ValidAligner(a) && TargetOf(a, t).Some?
    ensures a.target.first + t.0 < U32 && TargetOf(a, t).value.doc == a.target.first + t.0
  {
  }

  // A target that the engine has too belongs to an edge in range.
  lemma SharedIsInRange(a: Aligner, hit: Span, u: UnitId, t: UnitId)
    requires ValidAligner(a) && TargetOf(a, t).Some? && EngineTarget(a, hit, u, TargetOf(a, t).value)
    ensures exists i: nat :: ResolvedAt(t, a.docs, a.sents, a.target, i)
  {
    EngineInDoc(a, hit, u, TargetOf(a, t).value);
    TargetDoc(a, t);
    if forall i: nat :: !ResolvedAt(t, a.docs, a.sents, a.target, i) {
      OutOfRange(a, t);
      assert false;
    }
  }

  lemma InRangeReplies(a: Aligner, hit: Span, d: nat, i: nat, r: Result<seq<Target>>)
    requires ValidAligner(a) && hit.start < hit.end && LocatedAt(hit, a.docs, a.sents, a.source, d, i)
    requires Replied(a, d, hit.start, hit.end, r) && InRange(a, UnitAt(a.docs, a.sents, a.source, d, i))
    ensures SameReply(a, hit, UnitAt(a.docs, a.sents, a.source, d, i), r)
  {
    var u := UnitAt(a.docs, a.sents, a.source, d, i);
    ProjectionsAgree(a, hit, d, i, Target(0, 0, 0));
    forall x
      ensures x in r.value <==> EngineTarget(a, hit, u, x)
    {
      ProjectionsAgree(a, hit, d, i, x);
    }
  }

  lemma EdgeReplied(a: Aligner, d: nat, u: UnitId, start: nat, end: nat, r: Result<seq<Target>>, t: UnitId)
    requires ValidAligner(a) && a.source.first <= d && u.0 == d - a.source.first && Overlapping(a, d, u.1, start, end)
    requires Replied(a, d, start, end, r) && r.Ok? && (u, t) in a.edges
    ensures TargetOf(a, t).Some? && TargetOf(a, t).value in r.value
  {
    assert NoneMissing(a, d, start, end) && AllFound(a, d, [u.1], a.edges);
    UnitFound(a, d, u);
    UnitHit(a, d, u, TargetOf(a, t).value);
    assert Reached(a, d, start, end, TargetOf(a, t).value);
  }

  // For a non-empty hit inside one sentence: the daemon replies without an error and with the
  // engine's targets if and only if every edge of the unit leads to a sentence of its document.
  lemma SameReplyIff(a: Aligner, hit: Span, d: nat, i: nat, r: Result<seq<Target>>)
    requires ValidAligner(a) && hit.start < hit.end && LocatedAt(hit, a.docs, a.sents, a.source, d, i)
    requires Replied(a, d, hit.start, hit.end, r)
    ensures var u := UnitAt(a.docs, a.sents, a.source, d, i);
      SameReply(a, hit, u, r) <==> InRange(a, u)
  {
    var u := UnitAt(a.docs, a.sents, a.source, d, i);
    if InRange(a, u) {
      InRangeReplies(a, hit, d, i, r);
    } else if SameReply(a, hit, u, r) {
      HitUnit(a, hit, d, i, u);
      forall t | (u, t) in a.edges
        ensures exists m: nat :: ResolvedAt(t, a.docs, a.sents, a.target, m)
      {
        EdgeReplied(a, d, u, hit.start, hit.end, r, t);
        SharedIsInRange(a, hit, u, t);
      }
    }
  }

  // Three documents of one sentence each; the edge from the first leads to a second sentence of
  // the second document, which has only one.
  function Overshooting(): Aligner {
    Aligner([Span(0, 2), Span(2, 4), Span(4, 6)], [Span(0, 2), Span(2, 4), Span(4, 6)],
            Component("a", 0, 1), Component("b", 1, 2), [((0, 0), (0, 1))])
  }

  lemma OvershootingTarget()
    ensures ValidAligner(Overshooting()) && TargetOf(Overshooting(), (0, 1)) == Some(Target(1, 4, 6))
  {
    var a := Overshooting();
    assert a.sents[0].start < 2 && a.sents[1].start == 2;
    assert FirstSentence(a.docs, a.sents, 1) == Some(1);
  }

  lemma OvershootingHit()
    ensures var a := Overshooting();
      LocatedAt(Span(0, 1), a.docs, a.sents, a.source, 0, 0) && UnitAt(a.docs, a.sents, a.source, 0, 0) == (0, 0)
  {
  }

  lemma OnlyEdge(e: Edge)
    ensures e in Overshooting().edges <==> e == ((0, 0), (0, 1))
  {
  }

  lemma OvershootingEdge()
    ensures !InRange(Overshooting(), (0, 0))
  {
    var a := Overshooting();
    OvershootingTarget();
    OnlyEdge(((0, 0), (0, 1)));
    forall m: nat
      ensures !ResolvedAt((0, 1), a.docs, a.sents, a.target, m)
    {
      if ResolvedAt((0, 1), a.docs, a.sents, a.target, m) {
        ResolvedIsCounted(a, (0, 1), m);
      }
    }
  }

  // The daemon replies with the sentence of the third document, under the number of the second;
  // the engine has no such target.
  lemma OvershootingReply(r: Result<seq<Target>>)
    requires Replied(Overshooting(), 0, 0, 1, r)
    ensures r.Ok? && Target(1, 4, 6) in r.value
    ensures !SameReply(Overshooting(), Span(0, 1), (0, 0), r)
  {
    var a, hit, u := Overshooting(), Span(0, 1), (0, 0);
    OvershootingTarget();
    OvershootingHit();
    OvershootingEdge();
    HitUnit(a, hit, 0, 0, u);
    OnlyEdge(((0, 0), (0, 1)));
    OvershootingFound(a);
    EdgeReplied(a, 0, u, 0, 1, r, (0, 1));
    SameReplyIff(a, hit, 0, 0, r);
  }

  lemma OvershootingFound(a: Aligner)
    requires a == Overshooting() && ValidAligner(a) && TargetOf(a, (0, 1)).Some?
    requires forall k: nat :: Overlapping(a, 0, k, 0, 1) <==> k == 0
    ensures NoneMissing(a, 0, 0, 1)
  {
    forall k: nat | Overlapping(a, 0, k, 0, 1)
      ensures AllFound(a, 0, [k], a.edges)
    {
      forall e | e in a.edges ensures e == ((0, 0), (0, 1)) { OnlyEdge(e); }
    }
  }
}
