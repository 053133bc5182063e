// crates/montre-daemon/src/state.rs: what processes show interest in, and how a coupler
// turns its master's interest into one for its follower.
module Interests {
  import opened Core
  import opened Couplers
  import Align
  import D = DaemonAlign
  import P = Plan

  datatype InterestKind = PositionKind | SpanKind | SentenceKind | HitKind | ResultsKind | DocumentKind

  datatype Interest =
    | AtPosition(doc: nat, position: nat)
    | AtSpan(doc: nat, start: nat, end: nat)
    | AtSentence(doc: nat, sent: nat)
    | AtHit(result: string, hitIdx: nat)
    | AtResults(handle: string)
    | AtDocument(doc: nat)

  // A hit as the daemon keeps it.
  datatype Placed = Placed(doc: nat, span: Span)

  // What a coupler looks things up in: the corpus and the table of results.
  datatype Handle = Handle(corpus: P.Corpus, results: map<string, seq<Placed>>)

  // A layer that is not there has no spans.
  function Spans(h: Handle, layer: string): seq<Span> {
    if layer in h.corpus.spans then h.corpus.spans[layer] else []
  }

  function Docs(h: Handle): seq<Span> {
    Spans(h, "document")
  }

  function Sents(h: Handle): seq<Span> {
    Spans(h, "sentence")
  }

  // Spans in order and in 32 bits, as the builder writes them.
  ghost predicate ValidHandle(h: Handle) {
    && Ordered(Docs(h)) && Ordered(Sents(h)) && |Docs(h)| < D.U32 && |Sents(h)| < D.U32
    && forall c :: c in h.corpus.components ==> c.first < D.U32
  }

  function KindOf(i: Interest): InterestKind {
    match i
    case AtPosition(_, _) => PositionKind
    case AtSpan(_, _, _) => SpanKind
    case AtSentence(_, _) => SentenceKind
    case AtHit(_, _) => HitKind
    case AtResults(_) => ResultsKind
    case AtDocument(_) => DocumentKind
  }

  // coupler_kind_signature: what a coupler accepts, and what it produces.
  function Signature(k: CouplerKind): (seq<InterestKind>, seq<InterestKind>) {
    match k
    case SentenceMirror => ([PositionKind, SpanKind, SentenceKind], [SentenceKind])
    case Alignment(_) => ([SentenceKind, SpanKind], [SpanKind])
    case KwicSelection => ([HitKind], [SpanKind])
    case DocPickerSelection => ([DocumentKind], [DocumentKind])
    case NamedResultsSelection => ([ResultsKind], [ResultsKind])
    case ConlluView => ([SentenceKind], [SentenceKind])
  }

  predicate Overlap(a: seq<InterestKind>, b: seq<InterestKind>) {
    exists i :: 0 <= i < |a| && a[i] in b
  }

  // coupler_kind_compat
  predicate Compatible(k: CouplerKind, offers: seq<InterestKind>, consumes: seq<InterestKind>) {
    Overlap(Signature(k).0, offers) && Overlap(Signature(k).1, consumes)
  }

  // ---------------------------------------------------------------------------------
  // What a follower is told.

  predicate Covers(s: Span, p: nat) {
    s.start <= p < s.end
  }

  // Sentence number first is where the document begins.
  ghost predicate BeginsDocument(h: Handle, doc: nat, first: nat) {
    && doc < |Docs(h)| && first < |Sents(h)| && Covers(Docs(h)[doc], Sents(h)[first].start)
    && forall i :: 0 <= i < first ==> Sents(h)[i].start < Docs(h)[doc].start
  }

  // How far i is from first, counted in 32 bits.
  ghost predicate Away(first: nat, i: nat, rank: nat) {
    rank < D.U32 && (first + rank - i) % D.U32 == 0
  }

  ghost predicate ContainedIn(h: Handle, position: nat, i: nat) {
    i < |Sents(h)| && Covers(Sents(h)[i], position)
  }

  // The position is one of the document, in a sentence of this rank after the first there.
  ghost predicate RankAt(h: Handle, doc: nat, position: nat, rank: nat) {
    && doc < |Docs(h)| && Covers(Docs(h)[doc], position)
    && exists first: nat, i: nat :: BeginsDocument(h, doc, first) && ContainedIn(h, position, i) && Away(first, i, rank)
  }

  // The sentence that contains the position, or nothing.
  ghost predicate Mirrored(h: Handle, doc: nat, position: nat, news: seq<Interest>) {
    || (exists rank: nat :: RankAt(h, doc, position, rank) && news == [AtSentence(doc, rank)])
    || ((forall rank: nat :: !RankAt(h, doc, position, rank)) && news == [])
  }

  // The sentence of this rank in the document, if one that starts there has it.
  ghost predicate SentenceAt(h: Handle, doc: nat, sent: nat, s: Span) {
    exists first: nat :: BeginsDocument(h, doc, first) && first + sent < |Sents(h)| &&
      s == Sents(h)[first + sent] && s.start < Docs(h)[doc].end
  }

  // The alignment with its two components, and its edges.
  ghost predicate AlignerOf(h: Handle, name: string, a: D.Aligner) {
    var meta := P.FindAlignment(h.corpus.alignments, name);
    && meta.Some? && a.docs == Docs(h) && a.sents == Sents(h)
    && P.FindComponent(h.corpus.components, meta.value.sourceComponent) == Some(a.source)
    && P.FindComponent(h.corpus.components, meta.value.targetComponent) == Some(a.target)
    && a.edges == if name in h.corpus.edges then h.corpus.edges[name] else []
  }

  // The daemon's reply to the projection of a range, where the alignment is known.
  ghost predicate ReplyTo(h: Handle, name: string, doc: nat, start: nat, end: nat, targets: seq<D.Target>)
    requires ValidHandle(h)
  {
    exists a :: AlignerOf(h, name, a) && D.Replied(a, doc, start, end, Ok(targets))
  }

  // The spans that a projection gives, in its order, and nothing where it fails.
  ghost predicate Projected(h: Handle, name: string, doc: nat, start: nat, end: nat, news: seq<Interest>)
    requires ValidHandle(h)
  {
    || (exists targets: seq<D.Target> :: ReplyTo(h, name, doc, start, end, targets) && AreTargets(news, targets))
    || ((forall targets: seq<D.Target> :: !ReplyTo(h, name, doc, start, end, targets)) && news == [])
  }

  ghost predicate AreTargets(news: seq<Interest>, targets: seq<D.Target>) {
    |news| == |targets| &&
    forall i :: 0 <= i < |news| ==> news[i] == AtSpan(targets[i].doc, targets[i].start, targets[i].end)
  }

  // A sentence is projected as its span.
  ghost predicate SentenceProjected(h: Handle, name: string, doc: nat, sent: nat, news: seq<Interest>)
    requires ValidHandle(h)
  {
    || (exists s :: SentenceAt(h, doc, sent, s) && Projected(h, name, doc, s.start, s.end, news))
    || ((forall s :: !SentenceAt(h, doc, sent, s)) && news == [])
  }

  // The place of the hit, if the result is there and has so many hits.
  ghost predicate Selected(h: Handle, result: string, idx: nat, news: seq<Interest>) {
    if result in h.results && idx < |h.results[result]| then
      var hit := h.results[result][idx];
      news == [AtSpan(hit.doc, hit.span.start, hit.span.end)]
    else news == []
  }

  // The news that a coupler of this kind makes of an interest.
  ghost predicate Told(h: Handle, i: Interest, k: CouplerKind, news: seq<Interest>)
    requires ValidHandle(h)
  {
    match k
    case SentenceMirror =>
      (match i
       case AtSentence(_, _) => news == [i]
       case AtPosition(doc, position) => Mirrored(h, doc, position, news)
       case AtSpan(doc, start, _) => Mirrored(h, doc, start, news)
       case _ => news == [])
    case Alignment(name) =>
      (match i
       case AtSentence(doc, sent) => SentenceProjected(h, name, doc, sent, news)
       case AtSpan(doc, start, end) => Projected(h, name, doc, start, end, news)
       case _ => news == [])
    case KwicSelection =>
      (match i
       case AtHit(result, idx) => Selected(h, result, idx, news)
       case _ => news == [])
    case DocPickerSelection => news == []
    case NamedResultsSelection => news == []
    case ConlluView => news == []
  }

  // ---------------------------------------------------------------------------------
  // transform_interest

  lemma FirstBegins(h: Handle, doc: nat)
    requires ValidHandle(h)
    ensures var first := D.FirstSentence(Docs(h), Sents(h), doc);
      && (first.Some? ==> BeginsDocument(h, doc, first.value))
      && (forall k: nat :: BeginsDocument(h, doc, k) ==> first == Some(k))
  {
    forall k: nat | BeginsDocument(h, doc, k)
      ensures D.FirstSentence(Docs(h), Sents(h), doc) == Some(k)
    {
      var n := D.Before(Sents(h), Docs(h)[doc].start);
      assert !(n < k) && !(k < n);
    }
  }

  method WidenPositionToSentence(h: Handle, doc: nat, position: nat) returns (news: seq<Interest>)
    requires ValidHandle(h)
    ensures Mirrored(h, doc, position, news)
  {
    var docs, sents := Docs(h), Sents(h);
    var at := SpanContaining(docs, position);
    if at != Some(doc) {
      assert at.Some? && doc < |docs| ==> !Covers(docs[doc], position) by {
        if at.Some? && doc < |docs| {
          Apart(docs, at.value, doc, position);
        }
      }
      return [];
    }
    var i := SpanContaining(sents, position);
    if i.None? {
      assert forall j :: !ContainedIn(h, position, j);
      return [];
    }
    FirstBegins(h, doc);
    var first := D.FirstSentence(docs, sents, doc);
    if first.None? {
      return [];
    }
    var rank := (i.value - first.value) % D.U32;
    assert Away(first.value, i.value, rank) && ContainedIn(h, position, i.value);
    news := [AtSentence(doc, rank)];
  }

  lemma Apart(spans: seq<Span>, i: nat, j: nat, position: nat)
    requires Ordered(spans) && i < |spans| && j < |spans| && Covers(spans[i], position) && i != j
    ensures !Covers(spans[j], position)
  {
    assert i < j ==> spans[i].end <= spans[j].start;
    assert j < i ==> spans[j].end <= spans[i].start;
  }

  // The last sentence that starts in the document bounds those that do.
  lemma LastBounds(h: Handle, doc: nat, first: nat, i: nat)
    requires ValidHandle(h) && BeginsDocument(h, doc, first) && first <= i
    ensures var last := D.LastSentence(Docs(h), Sents(h), doc);
      (last.Some? && i <= last.value) <==> i < |Sents(h)| && Sents(h)[i].start < Docs(h)[doc].end
  {
  }

  lemma SentenceIs(h: Handle, doc: nat, first: nat, sent: nat, s: Span)
    requires ValidHandle(h) && BeginsDocument(h, doc, first)
    ensures SentenceAt(h, doc, sent, s) <==>
      first + sent < |Sents(h)| && s == Sents(h)[first + sent] && s.start < Docs(h)[doc].end
  {
    FirstBegins(h, doc);
  }

  method SentenceToSpan(h: Handle, doc: nat, sent: nat) returns (r: Option<Span>)
    requires ValidHandle(h)
    ensures r.Some? ==> SentenceAt(h, doc, sent, r.value)
    ensures forall s :: SentenceAt(h, doc, sent, s) ==> r == Some(s)
  {
    var docs, sents := Docs(h), Sents(h);
    FirstBegins(h, doc);
    var first := D.FirstSentence(docs, sents, doc);
    if first.None? {
      return None;
    }
    forall s
      ensures SentenceAt(h, doc, sent, s) <==>
        first.value + sent < |sents| && s == sents[first.value + sent] && s.start < docs[doc].end
    {
      SentenceIs(h, doc, first.value, sent, s);
    }
    LastBounds(h, doc, first.value, first.value + sent);
    var last := D.LastSentence(docs, sents, doc);
    if last.None? || first.value + sent > last.value {
      return None;
    }
    r := Some(sents[first.value + sent]);
  }

  // project_alignment, from the name of the alignment on.
  method ProjectAlignment(h: Handle, name: string, doc: nat, start: nat, end: nat) returns (r: Result<seq<D.Target>>)
    requires ValidHandle(h)
    ensures r.Ok? ==> ReplyTo(h, name, doc, start, end, r.value)
    ensures r.Err? ==> forall targets: seq<D.Target> :: !ReplyTo(h, name, doc, start, end, targets)
  {
    var meta := P.FindAlignment(h.corpus.alignments, name);
    if meta.None? {
      return Err;
    }
    var source := P.FindComponent(h.corpus.components, meta.value.sourceComponent);
    var target := P.FindComponent(h.corpus.components, meta.value.targetComponent);
    if source.None? || target.None? {
      return Err;
    }
    var edges := if name in h.corpus.edges then h.corpus.edges[name] else [];
    var a := D.Aligner(Docs(h), Sents(h), source.value, target.value, edges);
    assert AlignerOf(h, name, a) && forall b :: AlignerOf(h, name, b) ==> b == a;
    r := D.ProjectAlignment(a, doc, start, end);
  }

  method ProjectRange(h: Handle, name: string, doc: nat, start: nat, end: nat) returns (news: seq<Interest>)
    requires ValidHandle(h)
    ensures Projected(h, name, doc, start, end, news)
  {
    var r := ProjectAlignment(h, name, doc, start, end);
    if r.Err? {
      return [];
    }
    var targets := r.value;
    news := [];
    for j := 0 to |targets|
      invariant AreTargets(news, targets[..j])
    {
      news := news + [AtSpan(targets[j].doc, targets[j].start, targets[j].end)];
    }
    assert targets[..|targets|] == targets;
  }

  method TransformInterest(h: Handle, i: Interest, k: CouplerKind) returns (news: seq<Interest>)
    requires ValidHandle(h)
    ensures Told(h, i, k, news)
  {
    if KindOf(i) !in Signature(k).0 {
      return [];
    }
    match k
    case SentenceMirror =>
      match i {
        case AtSentence(_, _) => news := [i];
        case AtPosition(doc, position) => news := WidenPositionToSentence(h, doc, position);
        case AtSpan(doc, start, _) => news := WidenPositionToSentence(h, doc, start);
        case _ => news := [];
      }
    case Alignment(name) =>
      match i {
        case AtSentence(doc, sent) =>
          var span := SentenceToSpan(h, doc, sent);
          if span.None? {
            return [];
          }
          news := ProjectRange(h, name, doc, span.value.start, span.value.end);
        case AtSpan(doc, start, end) => news := ProjectRange(h, name, doc, start, end);
        case _ => news := [];
      }
    case KwicSelection =>
      match i {
        case AtHit(result, idx) =>
          if result !in h.results || idx >= |h.results[result]| {
            return [];
          }
          var hit := h.results[result][idx];
          news := [AtSpan(hit.doc, hit.span.start, hit.span.end)];
        case _ => news := [];
      }
    case DocPickerSelection => news := [];
    case NamedResultsSelection => news := [];
    case ConlluView => news := [];
  }

  // ---------------------------------------------------------------------------------
  // Facts about the news.

  // What a coupler makes of an interest has the kind the coupler announces, whatever is looked up.
  lemma TransformKind(h: Handle, i: Interest, k: CouplerKind, news: seq<Interest>, d: Interest)
    requires ValidHandle(h) && Told(h, i, k, news) && d in news
    ensures Signature(k).1 == [KindOf(d)]
  {
  }

  // So a follower that a coupler fits only ever gets what it declared to consume.
  lemma CompatibleDelivers(h: Handle, i: Interest, k: CouplerKind, offers: seq<InterestKind>,
      consumes: seq<InterestKind>, news: seq<Interest>, d: Interest)
    requires ValidHandle(h) && Compatible(k, offers, consumes) && Told(h, i, k, news) && d in news
    ensures KindOf(d) in consumes
  {
    TransformKind(h, i, k, news, d);
  }

  lemma AwayOnce(first: nat, i: nat, r: nat, s: nat)
    requires Away(first, i, r) && Away(first, i, s)
    ensures r == s
  {
  }

  // Only one sentence begins the document, and only one contains the position.
  lemma PlaceOnce(h: Handle, doc: nat, position: nat, m: nat, n: nat, i: nat, j: nat)
    requires ValidHandle(h) && BeginsDocument(h, doc, m) && BeginsDocument(h, doc, n)
    requires ContainedIn(h, position, i) && ContainedIn(h, position, j)
    ensures m == n && i == j
  {
    FirstBegins(h, doc);
    if i != j {
      Apart(Sents(h), i, j, position);
    }
  }

  lemma RankOnce(h: Handle, doc: nat, position: nat, r: nat, s: nat)
    requires ValidHandle(h) && RankAt(h, doc, position, r) && RankAt(h, doc, position, s)
    ensures r == s
  {
    var m: nat, i: nat :| BeginsDocument(h, doc, m) && ContainedIn(h, position, i) && Away(m, i, r);
    var n: nat, j: nat :| BeginsDocument(h, doc, n) && ContainedIn(h, position, j) && Away(n, j, s);
    PlaceOnce(h, doc, position, m, n, i, j);
    AwayOnce(m, i, r, s);
  }

  lemma BeginsBefore(h: Handle, doc: nat, first: nat, i: nat)
    requires BeginsDocument(h, doc, first) && i < |Sents(h)| && Docs(h)[doc].start <= Sents(h)[i].start
    ensures first <= i
  {
  }

  // A sentence that begins in the document has its rank there.
  lemma RankInside(h: Handle, doc: nat, position: nat, rank: nat, first: nat, i: nat)
    requires ValidHandle(h) && RankAt(h, doc, position, rank) && BeginsDocument(h, doc, first)
    requires ContainedIn(h, position, i) && Docs(h)[doc].start <= Sents(h)[i].start
    ensures i == first + rank
  {
    var n: nat, j: nat :| BeginsDocument(h, doc, n) && ContainedIn(h, position, j) && Away(n, j, rank);
    PlaceOnce(h, doc, position, first, n, i, j);
    BeginsBefore(h, doc, first, i);
    assert Away(first, i, i - first);
    AwayOnce(first, i, rank, i - first);
  }

  lemma ReplyToOnce(h: Handle, name: string, doc: nat, start: nat, end: nat, xs: seq<D.Target>, ys: seq<D.Target>)
    requires ValidHandle(h) && ReplyTo(h, name, doc, start, end, xs) && ReplyTo(h, name, doc, start, end, ys)
    ensures xs == ys
  {
    var a :| AlignerOf(h, name, a) && D.Replied(a, doc, start, end, Ok(xs));
    var b :| AlignerOf(h, name, b) && D.Replied(b, doc, start, end, Ok(ys));
    assert a == b;
    D.ReplyOnce(a, doc, start, end, Ok(xs), Ok(ys));
  }

  lemma ProjectedOnce(h: Handle, name: string, doc: nat, start: nat, end: nat, a: seq<Interest>, b: seq<Interest>)
    requires ValidHandle(h) && Projected(h, name, doc, start, end, a) && Projected(h, name, doc, start, end, b)
    ensures a == b
  {
    if targets :| ReplyTo(h, name, doc, start, end, targets) && AreTargets(a, targets) {
      var others :| ReplyTo(h, name, doc, start, end, others) && AreTargets(b, others);
      ReplyToOnce(h, name, doc, start, end, targets, others);
    }
  }

  // An interest and a coupler determine what the follower is told.
  lemma ToldOnce(h: Handle, i: Interest, k: CouplerKind, a: seq<Interest>, b: seq<Interest>)
    requires ValidHandle(h) && Told(h, i, k, a) && Told(h, i, k, b)
    ensures a == b
  {
    match k
    case SentenceMirror =>
      if i.AtPosition? || i.AtSpan? {
        MirroredOnce(h, i.doc, if i.AtPosition? then i.position else i.start, a, b);
      }
    case Alignment(name) =>
      match i {
        case AtSentence(doc, sent) => SentenceProjectedOnce(h, name, doc, sent, a, b);
        case AtSpan(doc, start, end) => ProjectedOnce(h, name, doc, start, end, a, b);
        case _ =>
      }
    case _ =>
  }

  lemma MirroredOnce(h: Handle, doc: nat, position: nat, a: seq<Interest>, b: seq<Interest>)
    requires ValidHandle(h) && Mirrored(h, doc, position, a) && Mirrored(h, doc, position, b)
    ensures a == b
  {
    if rank: nat :| RankAt(h, doc, position, rank) && a == [AtSentence(doc, rank)] {
      var other: nat :| RankAt(h, doc, position, other) && b == [AtSentence(doc, other)];
      RankOnce(h, doc, position, rank, other);
    }
  }

  lemma SentenceAtOnce(h: Handle, doc: nat, sent: nat, s: Span, t: Span)
    requires ValidHandle(h) && SentenceAt(h, doc, sent, s) && SentenceAt(h, doc, sent, t)
    ensures s == t
  {
    FirstBegins(h, doc);
  }

  lemma SentenceProjectedOnce(h: Handle, name: string, doc: nat, sent: nat, a: seq<Interest>, b: seq<Interest>)
    requires ValidHandle(h) && SentenceProjected(h, name, doc, sent, a) && SentenceProjected(h, name, doc, sent, b)
    ensures a == b
  {
    if s :| SentenceAt(h, doc, sent, s) && Projected(h, name, doc, s.start, s.end, a) {
      var t :| SentenceAt(h, doc, sent, t) && Projected(h, name, doc, t.start, t.end, b);
      SentenceAtOnce(h, doc, sent, s, t);
      ProjectedOnce(h, name, doc, s.start, s.end, a, b);
    }
  }
}
