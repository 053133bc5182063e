// crates/montre-build/src/builder.rs: what a built index holds beside its values, said of the input
// documents alone: where sentences and documents stand, their names and ids, the empty nodes, the
// spacing and the lexicon.
module Inputs {
  import opened Core
  import opened Sink
  import opened SinkFacts
  import L = Layers
  import Mwt
  import SinkLayers

  // ---------------------------------------------------------------------------------
  // Spacing.

  // The tokens without a space after them.
  function TightTokens(ts: seq<Token>): set<nat> {
    set p: nat | p < |ts| && ts[p].spaceAfterNo
  }

  lemma AppliedSpacing(s: Index, ws: seq<Write>)
    ensures Fold(Applied, s, ws, |ws|).spacing == s.spacing && Fold(Applied, s, ws, |ws|).position == s.position
  {
    var spacing, position := (t: Index) => t.spacing, (t: Index) => t.position;
    FoldInvariant(spacing, Applied, s, ws, |ws|);
    FoldInvariant(position, Applied, s, ws, |ws|);
  }

  ghost predicate Spaces(step: (Index, Token) -> Index) {
    forall s, t {:trigger step(s, t)} :: step(s, t).position == s.position + 1 &&
      step(s, t).spacing == s.spacing + if t.spaceAfterNo then {s.position} else {}
  }

  lemma StepSpaces(o: Options)
    ensures Spaces(TokenStep(o))
  {
    forall s, t
      ensures TokenStep(o)(s, t).position == s.position + 1
      ensures TokenStep(o)(s, t).spacing == s.spacing + if t.spaceAfterNo then {s.position} else {}
    {
      AppliedSpacing(s, Writes(t, o.decompose));
    }
  }

  lemma {:induction false} TokensSpacing(step: (Index, Token) -> Index, s: Index, ts: seq<Token>, n: nat)
    requires n <= |ts| && Spaces(step) && s.position == 0 && s.spacing == {}
    ensures Fold(step, s, ts, n).position == n && Fold(step, s, ts, n).spacing == TightTokens(ts[..n])
  {
    if n > 0 {
      TokensSpacing(step, s, ts, n - 1);
      assert ts[..n] == ts[..n - 1] + [ts[n - 1]];
    }
  }

  // The spacing bitmap holds exactly the tokens that no space follows.
  lemma BuiltSpacing(o: Options, withForward: bool, ds: seq<Document>)
    ensures Built(o, Empty(withForward), ds).spacing == TightTokens(TokensOf(ds))
    ensures Built(o, Empty(withForward), ds).position == |TokensOf(ds)|
  {
    var s, ts := Built(o, Empty(withForward), ds), TokensOf(ds);
    BuiltFromTokens(o, withForward, ds);
    StepSpaces(o);
    TokensSpacing(TokenStep(o), Empty(withForward), ts, |ts|);
    assert ts[..|ts|] == ts && Valued(s).spacing == s.spacing && Valued(s).position == s.position;
  }

  // ---------------------------------------------------------------------------------
  // Sentences.

  // A sentence with tokens: in which document it is, which one there, and where it begins.
  datatype Situated = Situated(document: Text, rank: nat, start: nat, sentence: Sentence)

  // Those among the first n sentences of a document that begins at start.
  function SentencesIn(d: Document, start: nat, n: nat): seq<Situated>
    requires n <= |d.sentences|
  {
    if n == 0 then []
    else
      var before, x := SentencesIn(d, start, n - 1), d.sentences[n - 1];
      if x.tokens == [] then before
      else before + [Situated(d.name, |before|, start + |Flat(OwnTokens, d.sentences, n - 1)|, x)]
  }

  // Those of the first n documents.
  function SentencesOf(ds: seq<Document>, n: nat): seq<Situated>
    requires n <= |ds|
  {
    if n == 0 then []
    else
      var d, start := ds[n - 1], |Flat(SentenceTokens, ds, n - 1)|;
      SentencesOf(ds, n - 1) + SentencesIn(d, start, |d.sentences|)
  }

  function SpanOf(u: Situated): Span {
    Span(u.start, u.start + |u.sentence.tokens|)
  }

  // Its own id, or the name of its document and its rank there.
  function IdFor(o: Options): Situated -> Text {
    (u: Situated) => if u.sentence.id.Some? then u.sentence.id.value else u.document + [58] + o.decimal(u.rank)
  }

  // The empty nodes of sentence number k.
  function NodesAt(k: nat, nodes: seq<Text>): (r: seq<EmptyNode>)
    ensures |r| == |nodes| && forall i :: 0 <= i < |r| ==> r[i] == EmptyNode(k, nodes[i])
  {
    seq(|nodes|, i requires 0 <= i < |nodes| => EmptyNode(k, nodes[i]))
  }

  // What f gives for each of the first n elements, with their indices.
  function Collect<A, B>(f: (nat, A) -> seq<B>, s: seq<A>, n: nat): seq<B>
    requires n <= |s|
  {
    if n == 0 then [] else Collect(f, s, n - 1) + f(n - 1, s[n - 1])
  }

  // The empty nodes of a sentence, where sentences are numbered from k.
  function NodesNumbered(k: nat): (nat, Situated) -> seq<EmptyNode> {
    (i: nat, u: Situated) => NodesAt(k + i, u.sentence.emptyNodes)
  }

  // The empty nodes of the first n sentences, numbered from k.
  function NodesFrom(k: nat, us: seq<Situated>, n: nat): seq<EmptyNode>
    requires n <= |us|
  {
    Collect(NodesNumbered(k), us, n)
  }

  // The multiword tokens of a sentence that begins at p: its tokens count from 1.
  function EntriesAt(p: nat, rs: seq<Range>): (r: seq<Mwt.Entry>)
    ensures |r| == |rs|
    ensures forall i :: 0 <= i < |r| ==>
      r[i] == Mwt.Entry(p + rs[i].first - 1, p + rs[i].last, rs[i].form, rs[i].noSpaceAfter)
  {
    seq(|rs|, i requires 0 <= i < |rs| => Mwt.Entry(p + rs[i].first - 1, p + rs[i].last, rs[i].form,
      rs[i].noSpaceAfter))
  }

  function EntriesIn(d: Document, start: nat, n: nat): seq<Mwt.Entry>
    requires n <= |d.sentences|
  {
    if n == 0 then []
    else
      EntriesIn(d, start, n - 1) + EntriesAt(start + |Flat(OwnTokens, d.sentences, n - 1)|, d.sentences[n - 1].mwts)
  }

  function EntriesOf(ds: seq<Document>, n: nat): seq<Mwt.Entry>
    requires n <= |ds|
  {
    if n == 0 then []
    else
      var d, start := ds[n - 1], |Flat(SentenceTokens, ds, n - 1)|;
      EntriesOf(ds, n - 1) + EntriesIn(d, start, |d.sentences|)
  }

  // What an index records of its sentences.
  datatype Trace = Trace(sents: seq<Span>, ids: seq<Text>, nodes: seq<EmptyNode>)

  function TraceOf(s: Index): Trace {
    Trace(s.sents, s.sentenceIds, s.emptyNodes)
  }

  // a with these sentences.
  function Extended(o: Options, a: Trace, us: seq<Situated>): Trace {
    Trace(a.sents + Each(SpanOf, us, |us|), a.ids + Each(IdFor(o), us, |us|), a.nodes + NodesFrom(|a.ids|, us, |us|))
  }

  lemma {:induction false} NodesAdded(s: Index, nodes: seq<Text>, n: nat)
    requires n <= |nodes|
    ensures var t := Fold(AddedNode, s, nodes, n);
      && t.sentenceIds == s.sentenceIds && t.emptyNodes == s.emptyNodes + NodesAt(|s.sentenceIds|, nodes[..n])
  {
    if n > 0 {
      NodesAdded(s, nodes, n - 1);
      assert nodes[..n] == nodes[..n - 1] + [nodes[n - 1]];
      assert NodesAt(|s.sentenceIds|, nodes[..n]) ==
        NodesAt(|s.sentenceIds|, nodes[..n - 1]) + [EmptyNode(|s.sentenceIds|, nodes[n - 1])];
    } else {
      assert s.emptyNodes + NodesAt(|s.sentenceIds|, nodes[..0]) == s.emptyNodes;
    }
  }

  lemma TokensKeepNodes(o: Options, s: Index, ts: seq<Token>)
    ensures var t := Fold(TokenStep(o), s, ts, |ts|);
      t.emptyNodes == s.emptyNodes && t.sentenceIds == s.sentenceIds && t.position == s.position + |ts|
  {
    var nodes, ids := (t: Index) => t.emptyNodes, (t: Index) => t.sentenceIds;
    forall t, x
      ensures nodes(TokenStep(o)(t, x)) == nodes(t) && ids(TokenStep(o)(t, x)) == ids(t)
    {
      FoldInvariant(nodes, Applied, t, Writes(x, o.decompose), |Writes(x, o.decompose)|);
      FoldInvariant(ids, Applied, t, Writes(x, o.decompose), |Writes(x, o.decompose)|);
    }
    FoldInvariant(nodes, TokenStep(o), s, ts, |ts|);
    FoldInvariant(ids, TokenStep(o), s, ts, |ts|);
    TokensCount(o, s, ts, |ts|);
  }

  lemma MwtsKeepNodes(s: Index, start: nat, rs: seq<Range>)
    ensures var t := Fold(From(PlaceMwt, start), s, rs, |rs|);
      t.emptyNodes == s.emptyNodes && t.sentenceIds == s.sentenceIds && t.position == s.position
  {
    MwtSpans(From(PlaceMwt, start), start, s, rs, |rs|);
  }

  lemma ClosedNodes(s: Index, nodes: seq<Text>, start: nat, id: Text)
    ensures Closed(s, nodes, start, id).emptyNodes ==
      if s.position <= start then s.emptyNodes else s.emptyNodes + NodesAt(|s.sentenceIds|, nodes)
  {
    NodesAdded(s, nodes, |nodes|);
    assert nodes[..|nodes|] == nodes;
  }

  // The empty nodes that a sentence adds carry the number of the sentence.
  lemma SentenceNodes(o: Options, s: Index, x: Sentence, name: Text, rank: nat)
    ensures AddedSentence(o, s, x, name, rank).emptyNodes ==
      if x.tokens == [] then s.emptyNodes else s.emptyNodes + NodesAt(|s.sentenceIds|, x.emptyNodes)
  {
    var t := Fold(TokenStep(o), s, x.tokens, |x.tokens|);
    TokensKeepNodes(o, s, x.tokens);
    MwtsKeepNodes(t, s.position, x.mwts);
    ClosedNodes(Fold(From(PlaceMwt, s.position), t, x.mwts, |x.mwts|), x.emptyNodes, s.position,
      IdOf(x, name, rank, o.decimal));
  }

  lemma {:induction false} CollectPrefix<A, B>(f: (nat, A) -> seq<B>, a: seq<A>, b: seq<A>, n: nat)
    requires n <= |a|
    ensures Collect(f, a + b, n) == Collect(f, a, n)
  {
    if n > 0 {
      CollectPrefix(f, a, b, n - 1);
      assert (a + b)[n - 1] == a[n - 1];
    }
  }

  lemma NodesNext(k: nat, us: seq<Situated>, u: Situated)
    ensures NodesFrom(k, us + [u], |us| + 1) == NodesFrom(k, us, |us|) + NodesAt(k + |us|, u.sentence.emptyNodes)
  {
    CollectPrefix(NodesNumbered(k), us, [u], |us|);
  }

  // One sentence more.
  lemma ExtendedNext(o: Options, a: Trace, us: seq<Situated>, u: Situated, b: Trace)
    requires b == Extended(o, a, us)
    ensures Extended(o, a, us + [u]) ==
      Trace(b.sents + [SpanOf(u)], b.ids + [IdFor(o)(u)], b.nodes + NodesAt(|b.ids|, u.sentence.emptyNodes))
  {
    EachSnoc(a.sents, SpanOf, us, u, SpanOf(u));
    EachSnoc(a.ids, IdFor(o), us, u, IdFor(o)(u));
    NodesNext(|a.ids|, us, u);
  }

  lemma {:induction false} RanksCount(d: Document, start: nat, n: nat)
    requires n <= |d.sentences|
    ensures RankAfter(d.sentences, n) == |SentencesIn(d, start, n)|
  {
    if n > 0 {
      RanksCount(d, start, n - 1);
    }
  }

  // After n sentences of a document.
  ghost predicate InTheMiddle(o: Options, s: Index, t: Index, d: Document, n: nat)
    requires n <= |d.sentences|
  {
    && t.docs == s.docs && t.documentNames == s.documentNames
    && t.position == s.position + |Flat(OwnTokens, d.sentences, n)|
    && TraceOf(t) == Extended(o, TraceOf(s), SentencesIn(d, s.position, n))
    && t.mwts == s.mwts + EntriesIn(d, s.position, n)
  }

  lemma ExtendedNone(o: Options, a: Trace)
    ensures Extended(o, a, []) == a
  {
  }

  // One sentence more, if it has tokens.
  function TraceWith(o: Options, t: Trace, u: Situated): Trace {
    if u.sentence.tokens == [] then t
    else Trace(t.sents + [SpanOf(u)], t.ids + [IdFor(o)(u)], t.nodes + NodesAt(|t.ids|, u.sentence.emptyNodes))
  }

  // What one sentence adds.
  ghost predicate Adds(o: Options, name: Text, t: Index, r: Index, x: (Sentence, nat)) {
    && r.docs == t.docs && r.documentNames == t.documentNames && r.position == t.position + |x.0.tokens|
    && r.mwts == t.mwts + EntriesAt(t.position, x.0.mwts)
    && TraceOf(r) == TraceWith(o, TraceOf(t), Situated(name, x.1, t.position, x.0))
  }

  ghost predicate AddsEach(o: Options, name: Text, step: (Index, (Sentence, nat)) -> Index) {
    forall t, x {:trigger step(t, x)} :: Adds(o, name, t, step(t, x), x)
  }

  lemma SameId(o: Options, u: Situated)
    ensures IdOf(u.sentence, u.document, u.rank, o.decimal) == IdFor(o)(u)
  {
  }

  lemma SamePlaces(p: nat, rs: seq<Range>)
    ensures PlacedAll(p, rs) == EntriesAt(p, rs)
  {
  }

  lemma {:induction false} TraceIs(o: Options, t: Index, r: Index, u: Situated, span: Span, id: Text)
    requires span == SpanOf(u) && id == IdFor(o)(u)
    requires r.sents == (if u.sentence.tokens == [] then t.sents else t.sents + [span])
    requires r.sentenceIds == (if u.sentence.tokens == [] then t.sentenceIds else t.sentenceIds + [id])
    requires r.emptyNodes == if u.sentence.tokens == [] then t.emptyNodes
      else t.emptyNodes + NodesAt(|t.sentenceIds|, u.sentence.emptyNodes)
    ensures TraceOf(r) == TraceWith(o, TraceOf(t), u)
  {
  }

  lemma {:induction false} TraceAdded(o: Options, name: Text, t: Index, r: Index, x: (Sentence, nat), id: Text)
    requires SentenceAdds(t, r, x.0, id) && id == IdFor(o)(Situated(name, x.1, t.position, x.0))
    requires r.emptyNodes ==
      if x.0.tokens == [] then t.emptyNodes else t.emptyNodes + NodesAt(|t.sentenceIds|, x.0.emptyNodes)
    ensures Adds(o, name, t, r, x)
  {
    SamePlaces(t.position, x.0.mwts);
    TraceIs(o, t, r, Situated(name, x.1, t.position, x.0), Span(t.position, r.position), id);
  }

  lemma StepAdds(o: Options, name: Text)
    ensures AddsEach(o, name, SentenceStep(o, name))
  {
    forall t, x
      ensures Adds(o, name, t, SentenceStep(o, name)(t, x), x)
    {
      SentenceSpans(o, t, x.0, name, x.1);
      SentenceNodes(o, t, x.0, name, x.1);
      SameId(o, Situated(name, x.1, t.position, x.0));
      TraceAdded(o, name, t, SentenceStep(o, name)(t, x), x, IdOf(x.0, name, x.1, o.decimal));
    }
  }

  lemma SentencesInNext(d: Document, start: nat, n: nat)
    requires n < |d.sentences|
    ensures var x, before := d.sentences[n], SentencesIn(d, start, n);
      SentencesIn(d, start, n + 1) == if x.tokens == [] then before
        else before + [Situated(d.name, |before|, start + |Flat(OwnTokens, d.sentences, n)|, x)]
    ensures |Flat(OwnTokens, d.sentences, n + 1)| == |Flat(OwnTokens, d.sentences, n)| + |d.sentences[n].tokens|
  {
  }

  lemma {:induction false} TraceOn(o: Options, a: Trace, d: Document, start: nat, n: nat, t: Trace, u: Situated)
    requires n < |d.sentences| && t == Extended(o, a, SentencesIn(d, start, n))
    requires u == Situated(d.name, RankAfter(d.sentences, n), start + |Flat(OwnTokens, d.sentences, n)|, d.sentences[n])
    ensures TraceWith(o, t, u) == Extended(o, a, SentencesIn(d, start, n + 1))
  {
    RanksCount(d, start, n);
    SentencesInNext(d, start, n);
    if u.sentence.tokens != [] {
      ExtendedNext(o, a, SentencesIn(d, start, n), u, t);
    }
  }

  lemma {:induction false} EntriesOn(before: seq<Mwt.Entry>, d: Document, start: nat, n: nat, t: seq<Mwt.Entry>,
      at: nat)
    requires n < |d.sentences| && t == before + EntriesIn(d, start, n)
    requires at == start + |Flat(OwnTokens, d.sentences, n)|
    ensures t + EntriesAt(at, d.sentences[n].mwts) == before + EntriesIn(d, start, n + 1)
  {
    AppendAssoc(before, EntriesIn(d, start, n), EntriesAt(at, d.sentences[n].mwts));
  }

  lemma {:induction false} LengthOn(d: Document, n: nat)
    requires n < |d.sentences|
    ensures |Flat(OwnTokens, d.sentences, n + 1)| == |Flat(OwnTokens, d.sentences, n)| + |d.sentences[n].tokens|
  {
  }

  lemma {:induction false} SentenceNext(o: Options, s: Index, t: Index, d: Document, n: nat, r: Index)
    requires n < |d.sentences| && InTheMiddle(o, s, t, d, n)
    requires Adds(o, d.name, t, r, (d.sentences[n], RankAfter(d.sentences, n)))
    ensures InTheMiddle(o, s, r, d, n + 1)
  {
    var u := Situated(d.name, RankAfter(d.sentences, n), t.position, d.sentences[n]);
    LengthOn(d, n);
    TraceOn(o, TraceOf(s), d, s.position, n, TraceOf(t), u);
    EntriesOn(s.mwts, d, s.position, n, t.mwts, t.position);
  }

  lemma NothingYet(o: Options, s: Index, d: Document)
    ensures InTheMiddle(o, s, s, d, 0)
  {
    ExtendedNone(o, TraceOf(s));
  }

  // A property that counts the elements, and that every step keeps.
  ghost predicate KeptByEach<X(!new)>(after: (nat, Index) -> bool, step: (Index, X) -> Index, xs: seq<X>) {
    forall k: nat, t {:trigger after(k, t)} :: k < |xs| && after(k, t) ==> after(k + 1, step(t, xs[k]))
  }

  lemma {:induction false} FoldCounts<X(!new)>(
      after: (nat, Index) -> bool, step: (Index, X) -> Index, s: Index, xs: seq<X>, n: nat)
    requires n <= |xs| && after(0, s) && KeptByEach(after, step, xs)
    ensures after(n, Fold(step, s, xs, n))
  {
    if n > 0 {
      FoldCounts(after, step, s, xs, n - 1);
    }
  }

  ghost function Middle(o: Options, s: Index, d: Document): (nat, Index) -> bool {
    (n: nat, t: Index) => n <= |d.sentences| && InTheMiddle(o, s, t, d, n)
  }

  lemma {:induction false} MiddleNext(o: Options, s: Index, d: Document, k: nat, t: Index, r: Index)
    requires k < |d.sentences| && Middle(o, s, d)(k, t)
    requires Adds(o, d.name, t, r, (d.sentences[k], RankAfter(d.sentences, k)))
    ensures Middle(o, s, d)(k + 1, r)
  {
    SentenceNext(o, s, t, d, k, r);
  }

  lemma {:induction false} MiddleKept(o: Options, s: Index, d: Document, after: (nat, Index) -> bool,
      step: (Index, (Sentence, nat)) -> Index, xs: seq<(Sentence, nat)>)
    requires AddsEach(o, d.name, step) && xs == Ranked(d.sentences) && after == Middle(o, s, d)
    ensures KeptByEach(after, step, xs)
  {
    forall k: nat, t | k < |xs| && after(k, t)
      ensures after(k + 1, step(t, xs[k]))
    {
      assert Adds(o, d.name, t, step(t, xs[k]), xs[k]);
      MiddleNext(o, s, d, k, t, step(t, xs[k]));
    }
  }

  lemma SentencesRecorded(o: Options, s: Index, d: Document)
    ensures InTheMiddle(o, s, Fold(SentenceStep(o, d.name), s, Ranked(d.sentences), |d.sentences|), d, |d.sentences|)
  {
    var after, step, xs := Middle(o, s, d), SentenceStep(o, d.name), Ranked(d.sentences);
    StepAdds(o, d.name);
    NothingYet(o, s, d);
    MiddleKept(o, s, d, after, step, xs);
    FoldCounts(after, step, s, xs, |xs|);
  }

  // ---------------------------------------------------------------------------------
  // Documents.

  // A document with tokens, and where it begins.
  datatype Stretch = Stretch(name: Text, start: nat, length: nat)

  function DocumentsOf(ds: seq<Document>, n: nat): seq<Stretch>
    requires n <= |ds|
  {
    if n == 0 then []
    else
      var d := Stretch(ds[n - 1].name, |Flat(SentenceTokens, ds, n - 1)|, |SentenceTokens(ds[n - 1])|);
      DocumentsOf(ds, n - 1) + if d.length == 0 then [] else [d]
  }

  function StretchSpan(d: Stretch): Span {
    Span(d.start, d.start + d.length)
  }

  function StretchName(d: Stretch): Text {
    d.name
  }

  // The index holds exactly these documents and sentences.
  ghost predicate Holds(o: Options, s: Index, ds: seq<Stretch>, us: seq<Situated>, ms: seq<Mwt.Entry>) {
    && s.docs == Each(StretchSpan, ds, |ds|) && s.documentNames == Each(StretchName, ds, |ds|)
    && TraceOf(s) == Extended(o, Trace([], [], []), us) && s.mwts == ms
  }

  lemma {:induction false} EachJoin<A, B>(f: A -> B, a: seq<A>, b: seq<A>, n: nat)
    requires n <= |b|
    ensures Each(f, a + b, |a| + n) == Each(f, a, |a|) + Each(f, b, n)
  {
    if n == 0 {
      EachSame(f, a + b, a, |a|);
      AppendNothing(Each(f, a, |a|));
    } else {
      EachJoin(f, a, b, n - 1);
      AppendAssoc(Each(f, a, |a|), Each(f, b, n - 1), [f(b[n - 1])]);
    }
  }

  // g goes on where f is after k elements.
  ghost predicate GoesOn<A(!new), B>(f: (nat, A) -> seq<B>, g: (nat, A) -> seq<B>, k: nat) {
    forall i: nat, x {:trigger g(i, x)} :: g(i, x) == f(k + i, x)
  }

  lemma NodesGoOn(k: nat)
    ensures GoesOn(NodesNumbered(0), NodesNumbered(k), k)
  {
  }

  lemma {:induction false} CollectJoin<A(!new), B>(
      f: (nat, A) -> seq<B>, g: (nat, A) -> seq<B>, a: seq<A>, b: seq<A>, n: nat)
    requires n <= |b| && GoesOn(f, g, |a|)
    ensures Collect(f, a + b, |a| + n) == Collect(f, a, |a|) + Collect(g, b, n)
  {
    if n == 0 {
      CollectPrefix(f, a, b, |a|);
      AppendNothing(Collect(f, a, |a|));
    } else {
      CollectJoin(f, g, a, b, n - 1);
      assert (a + b)[|a| + n - 1] == b[n - 1] && g(n - 1, b[n - 1]) == f(|a| + (n - 1), b[n - 1]);
      AppendAssoc(Collect(f, a, |a|), Collect(g, b, n - 1), g(n - 1, b[n - 1]));
    }
  }

  // Two lists one after the other, put after nothing.
  lemma EachTwice<A, B>(f: A -> B, a: seq<A>, b: seq<A>)
    ensures [] + Each(f, a + b, |a + b|) == ([] + Each(f, a, |a|)) + Each(f, b, |b|)
  {
    EachJoin(f, a, b, |b|);
    JoinedTwice(Each(f, a + b, |a + b|), Each(f, a, |a|), Each(f, b, |b|));
  }

  lemma CollectTwice<A(!new), B>(f: (nat, A) -> seq<B>, g: (nat, A) -> seq<B>, a: seq<A>, b: seq<A>)
    requires GoesOn(f, g, |a|)
    ensures [] + Collect(f, a + b, |a + b|) == ([] + Collect(f, a, |a|)) + Collect(g, b, |b|)
  {
    var all, first, second := Collect(f, a + b, |a + b|), Collect(f, a, |a|), Collect(g, b, |b|);
    CollectJoin(f, g, a, b, |b|);
    JoinedTwice(all, first, second);
  }

  lemma JoinedTwice<B>(all: seq<B>, first: seq<B>, second: seq<B>)
    requires all == first + second
    ensures [] + all == ([] + first) + second
  {
    AppendNothing(all);
    AppendNothing(first);
  }

  lemma {:induction false} ExtendedTwice(o: Options, us: seq<Situated>, vs: seq<Situated>, a: Trace, b: Trace)
    requires a == Trace([], [], []) && b == Extended(o, a, us)
    ensures Extended(o, b, vs) == Extended(o, a, us + vs)
  {
    EachTwice(SpanOf, us, vs);
    EachTwice(IdFor(o), us, vs);
    CountedIds(o, us, b);
    NodesGoOn(|us|);
    CollectTwice(NodesNumbered(0), NodesNumbered(|us|), us, vs);
  }

  lemma {:induction false} CountedIds(o: Options, us: seq<Situated>, b: Trace)
    requires b == Extended(o, Trace([], [], []), us)
    ensures |b.ids| == |us|
  {
  }

  lemma StretchesNext(s: Index, ds: seq<Stretch>, next: Stretch)
    requires s.docs == Each(StretchSpan, ds, |ds|) && s.documentNames == Each(StretchName, ds, |ds|)
    ensures s.docs + [StretchSpan(next)] == Each(StretchSpan, ds + [next], |ds| + 1)
    ensures s.documentNames + [next.name] == Each(StretchName, ds + [next], |ds| + 1)
  {
    EachNext(StretchSpan, ds, next);
    EachNext(StretchName, ds, next);
  }

  // What one document adds.
  ghost predicate AddsDocument(o: Options, s: Index, r: Index, d: Document) {
    var next := Stretch(d.name, s.position, |SentenceTokens(d)|);
    && r.position == s.position + next.length
    && r.docs == s.docs + (if next.length == 0 then [] else [StretchSpan(next)])
    && r.documentNames == s.documentNames + (if next.length == 0 then [] else [next.name])
    && TraceOf(r) == Extended(o, TraceOf(s), SentencesIn(d, s.position, |d.sentences|))
    && r.mwts == s.mwts + EntriesIn(d, s.position, |d.sentences|)
  }

  ghost predicate AddsDocuments(o: Options, step: (Index, Document) -> Index) {
    forall s, d {:trigger step(s, d)} :: AddsDocument(o, s, step(s, d), d)
  }

  lemma DocumentEnds(o: Options, s: Index, t: Index, r: Index, d: Document)
    requires InTheMiddle(o, s, t, d, |d.sentences|)
    requires r == if t.position > s.position then EndedDocument(t, s.position, d.name) else t
    ensures AddsDocument(o, s, r, d)
  {
  }

  lemma StepAddsDocument(o: Options)
    ensures AddsDocuments(o, DocumentStep(o))
  {
    forall s, d
      ensures AddsDocument(o, s, DocumentStep(o)(s, d), d)
    {
      var step, xs := SentenceStep(o, d.name), Ranked(d.sentences);
      SentencesRecorded(o, s, d);
      DocumentEnds(o, s, Fold(step, s, xs, |xs|), DocumentStep(o)(s, d), d);
    }
  }

  lemma DocumentNext(o: Options, s: Index, r: Index, ds: seq<Stretch>, us: seq<Situated>, ms: seq<Mwt.Entry>,
      d: Document, next: Stretch)
    requires Holds(o, s, ds, us, ms) && next == Stretch(d.name, s.position, |SentenceTokens(d)|) &&
      AddsDocument(o, s, r, d)
    ensures Holds(o, r, ds + (if next.length == 0 then [] else [next]),
                  us + SentencesIn(d, s.position, |d.sentences|), ms + EntriesIn(d, s.position, |d.sentences|))
  {
    ExtendedTwice(o, us, SentencesIn(d, s.position, |d.sentences|), Trace([], [], []), TraceOf(s));
    if next.length > 0 {
      StretchesNext(s, ds, next);
    } else {
      assert ds + [] == ds;
    }
  }

  lemma DocumentsNext(ds: seq<Document>, n: nat)
    requires n < |ds|
    ensures var start := |Flat(SentenceTokens, ds, n)|;
      var next := Stretch(ds[n].name, start, |SentenceTokens(ds[n])|);
      && DocumentsOf(ds, n + 1) == DocumentsOf(ds, n) + (if next.length == 0 then [] else [next])
      && EntriesOf(ds, n + 1) == EntriesOf(ds, n) + EntriesIn(ds[n], start, |ds[n].sentences|)
      && SentencesOf(ds, n + 1) == SentencesOf(ds, n) + SentencesIn(ds[n], start, |ds[n].sentences|)
      && |Flat(SentenceTokens, ds, n + 1)| == start + next.length
  {
  }

  // After n documents.
  ghost predicate HoldsFirst(o: Options, s: Index, ds: seq<Document>, n: nat)
    requires n <= |ds|
  {
    && s.position == |Flat(SentenceTokens, ds, n)|
    && Holds(o, s, DocumentsOf(ds, n), SentencesOf(ds, n), EntriesOf(ds, n))
  }

  lemma HoldsNext(o: Options, s: Index, r: Index, ds: seq<Document>, n: nat)
    requires n < |ds| && HoldsFirst(o, s, ds, n) && AddsDocument(o, s, r, ds[n])
    ensures HoldsFirst(o, r, ds, n + 1)
  {
    var next := Stretch(ds[n].name, s.position, |SentenceTokens(ds[n])|);
    DocumentsNext(ds, n);
    DocumentNext(o, s, r, DocumentsOf(ds, n), SentencesOf(ds, n), EntriesOf(ds, n), ds[n], next);
  }

  lemma NothingHeld(o: Options, withForward: bool, ds: seq<Document>)
    ensures HoldsFirst(o, Empty(withForward), ds, 0)
  {
    ExtendedNone(o, Trace([], [], []));
  }

  ghost function Holding(o: Options, ds: seq<Document>): (nat, Index) -> bool {
    (n: nat, t: Index) => n <= |ds| && HoldsFirst(o, t, ds, n)
  }

  lemma {:induction false} HoldingNext(o: Options, ds: seq<Document>, k: nat, t: Index, r: Index)
    requires k < |ds| && Holding(o, ds)(k, t) && AddsDocument(o, t, r, ds[k])
    ensures Holding(o, ds)(k + 1, r)
  {
    HoldsNext(o, t, r, ds, k);
  }

  lemma {:induction false} HoldingKept(
      o: Options, ds: seq<Document>, after: (nat, Index) -> bool, step: (Index, Document) -> Index)
    requires AddsDocuments(o, step) && after == Holding(o, ds)
    ensures KeptByEach(after, step, ds)
  {
    forall k: nat, t | k < |ds| && after(k, t)
      ensures after(k + 1, step(t, ds[k]))
    {
      HoldingNext(o, ds, k, t, step(t, ds[k]));
    }
  }

  // A built index holds the documents with tokens and their sentences with tokens: spans counted
  // in tokens, names, ids, the empty nodes under the number of their sentence, and the multiword
  // tokens.
  lemma BuiltHolds(o: Options, withForward: bool, ds: seq<Document>)
    ensures HoldsFirst(o, Built(o, Empty(withForward), ds), ds, |ds|)
  {
    var after, step := Holding(o, ds), DocumentStep(o);
    StepAddsDocument(o);
    NothingHeld(o, withForward, ds);
    HoldingKept(o, ds, after, step);
    FoldCounts(after, step, Empty(withForward), ds, |ds|);
  }

  // ---------------------------------------------------------------------------------
  // The lexicon.

  // Some of the first n tokens gives this text to the layer.
  ghost predicate Gives(o: Options, ts: seq<Token>, n: nat, l: Layer, t: Text)
    requires n <= |ts|
  {
    exists p :: 0 <= p < n && L.Str(t) in SinkLayers.TokenValues(ts[p], o.decompose, l)
  }

  lemma AddedTerm(ts: seq<Text>, t: Text)
    ensures forall x :: x in AddUnlessIn(ts, t) <==> x in ts || x == t
    ensures NoDup(ts) ==> NoDup(AddUnlessIn(ts, t))
    ensures ts <= AddUnlessIn(ts, t)
  {
  }

  lemma AppliedTerms(s: Index, w: Write, l: Layer)
    ensures var before, after := Terms(s.lexicon, l), Terms(Applied(s, w).lexicon, l);
      && before <= after && (NoDup(before) ==> NoDup(after))
      && forall t :: t in after <==> t in before || (w.layer == l && w.value == L.Str(t) && !ForwardOnly(l))
  {
    if w.value.Str? {
      AddedTerm(Terms(s.lexicon, w.layer), w.value.text);
    }
  }

  lemma {:induction false} WritesTerms(s: Index, ws: seq<Write>, n: nat, l: Layer)
    requires n <= |ws|
    ensures var before, after := Terms(s.lexicon, l), Terms(Fold(Applied, s, ws, n).lexicon, l);
      && before <= after && (NoDup(before) ==> NoDup(after))
      && forall t :: t in after <==> t in before || (L.Str(t) in SinkLayers.Given(ws, n, l) && !ForwardOnly(l))
  {
    if n > 0 {
      WritesTerms(s, ws, n - 1, l);
      AppliedTerms(Fold(Applied, s, ws, n - 1), ws[n - 1], l);
    }
  }

  // What one token adds to the terms of a layer.
  ghost predicate Enters(o: Options, l: Layer, s: Index, r: Index, x: Token) {
    var before, after := Terms(s.lexicon, l), Terms(r.lexicon, l);
    && before <= after && (NoDup(before) ==> NoDup(after))
    && forall t :: t in after <==>
         t in before || (L.Str(t) in SinkLayers.TokenValues(x, o.decompose, l) && !ForwardOnly(l))
  }

  ghost predicate EntersEach(o: Options, l: Layer, step: (Index, Token) -> Index) {
    forall s, x {:trigger step(s, x)} :: Enters(o, l, s, step(s, x), x)
  }

  lemma StepEnters(o: Options, l: Layer)
    ensures EntersEach(o, l, TokenStep(o))
  {
    forall s, x
      ensures Enters(o, l, s, TokenStep(o)(s, x), x)
    {
      WritesTerms(s, Writes(x, o.decompose), |Writes(x, o.decompose)|, l);
    }
  }

  // Each text once that some of the first n tokens gives.
  ghost predicate HasTerms(o: Options, l: Layer, s: Index, ts: seq<Token>, n: nat)
    requires n <= |ts|
  {
    var terms := Terms(s.lexicon, l);
    NoDup(terms) && forall t :: t in terms <==> Gives(o, ts, n, l, t) && !ForwardOnly(l)
  }

  lemma GivesNext(o: Options, ts: seq<Token>, n: nat, l: Layer, t: Text)
    requires n < |ts|
    ensures Gives(o, ts, n + 1, l, t) <==>
      Gives(o, ts, n, l, t) || L.Str(t) in SinkLayers.TokenValues(ts[n], o.decompose, l)
  {
  }

  lemma HasTermsNext(o: Options, l: Layer, s: Index, r: Index, ts: seq<Token>, n: nat)
    requires n < |ts| && HasTerms(o, l, s, ts, n) && Enters(o, l, s, r, ts[n])
    ensures HasTerms(o, l, r, ts, n + 1)
  {
    forall t
      ensures Gives(o, ts, n + 1, l, t) <==>
        Gives(o, ts, n, l, t) || L.Str(t) in SinkLayers.TokenValues(ts[n], o.decompose, l)
    {
      GivesNext(o, ts, n, l, t);
    }
  }

  lemma {:induction false} TokensTerms(
      o: Options, l: Layer, step: (Index, Token) -> Index, e: Index, ts: seq<Token>, n: nat)
    requires n <= |ts| && EntersEach(o, l, step) && HasTerms(o, l, e, ts, 0)
    ensures HasTerms(o, l, Fold(step, e, ts, n), ts, n)
  {
    if n > 0 {
      var t := Fold(step, e, ts, n - 1);
      TokensTerms(o, l, step, e, ts, n - 1);
      HasTermsNext(o, l, t, step(t, ts[n - 1]), ts, n - 1);
    }
  }

  // The lexicon lists each text that some token gives to a layer once, for the layers that are indexed.
  lemma BuiltTerms(o: Options, withForward: bool, ds: seq<Document>, l: Layer)
    ensures HasTerms(o, l, Built(o, Empty(withForward), ds), TokensOf(ds), |TokensOf(ds)|)
  {
    var s, ts := Built(o, Empty(withForward), ds), TokensOf(ds);
    BuiltFromTokens(o, withForward, ds);
    StepEnters(o, l);
    TokensTerms(o, l, TokenStep(o), Empty(withForward), ts, |ts|);
    assert Valued(s).lexicon == s.lexicon;
  }

  lemma {:induction false} TokensGrow(
      o: Options, l: Layer, step: (Index, Token) -> Index, s: Index, ts: seq<Token>, n: nat)
    requires n <= |ts| && EntersEach(o, l, step)
    ensures Terms(s.lexicon, l) <= Terms(Fold(step, s, ts, n).lexicon, l)
  {
    if n > 0 {
      TokensGrow(o, l, step, s, ts, n - 1);
      var t := Fold(step, s, ts, n - 1);
      assert Enters(o, l, t, step(t, ts[n - 1]), ts[n - 1]);
    }
  }

  // Adding a document keeps the numbers of the terms.
  lemma TermsKeepNumbers(o: Options, s: Index, d: Document, l: Layer)
    ensures Terms(s.lexicon, l) <= Terms(Added(o, s, d).lexicon, l)
  {
    var ts := SentenceTokens(d);
    ValuedDocument(o, s, d);
    StepEnters(o, l);
    TokensGrow(o, l, TokenStep(o), Valued(s), ts, |ts|);
    assert Valued(Added(o, s, d)).lexicon == Added(o, s, d).lexicon && Valued(s).lexicon == s.lexicon;
  }
}
