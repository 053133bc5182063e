// What an index that was built file by file looks like: its spans tile the positions, its
// multiword tokens are sorted, and merging the indexes of the files gives the index of all
// documents.
module SinkFacts {
  import opened Core
  import opened Sink
  import Mwt

  // ---------------------------------------------------------------------------------
  // Properties that every addition keeps.

  lemma {:induction false} FoldKeeps<X(!new)>(p: Index -> bool, f: (Index, X) -> Index, s: Index, xs: seq<X>, n: nat)
    requires n <= |xs| && p(s) && forall t, x {:trigger p(f(t, x))} :: p(t) ==> p(f(t, x))
    ensures p(Fold(f, s, xs, n))
  {
    if n > 0 {
      FoldKeeps(p, f, s, xs, n - 1);
    }
  }

  // The same where only some elements occur.
  lemma {:induction false} FoldKeepsIf<X(!new)>(
      p: Index -> bool, ok: X -> bool, f: (Index, X) -> Index, s: Index, xs: seq<X>, n: nat)
    requires n <= |xs| && p(s) && forall i :: 0 <= i < n ==> ok(xs[i])
    requires forall t, x {:trigger p(f(t, x))} :: p(t) && ok(x) ==> p(f(t, x))
    ensures p(Fold(f, s, xs, n))
  {
    if n > 0 {
      FoldKeepsIf(p, ok, f, s, xs, n - 1);
    }
  }

  // What f does not change.
  lemma {:induction false} FoldInvariant<X(!new), V>(m: Index -> V, f: (Index, X) -> Index, s: Index, xs: seq<X>,
      n: nat)
    requires n <= |xs| && forall t, x {:trigger m(f(t, x))} :: m(f(t, x)) == m(t)
    ensures m(Fold(f, s, xs, n)) == m(s)
  {
    if n > 0 {
      FoldInvariant(m, f, s, xs, n - 1);
    }
  }

  lemma {:induction false} FoldPrefix<X>(f: (Index, X) -> Index, s: Index, xs: seq<X>, ys: seq<X>, n: nat)
    requires n <= |xs|
    ensures Fold(f, s, xs + ys, n) == Fold(f, s, xs, n)
  {
    if n > 0 {
      FoldPrefix(f, s, xs, ys, n - 1);
    }
  }

  lemma {:induction false} FoldAppend<X>(f: (Index, X) -> Index, s: Index, xs: seq<X>, ys: seq<X>, n: nat)
    requires n <= |ys|
    ensures Fold(f, s, xs + ys, |xs| + n) == Fold(f, Fold(f, s, xs, |xs|), ys, n)
  {
    if n == 0 {
      FoldPrefix(f, s, xs, ys, |xs|);
    } else {
      FoldAppend(f, s, xs, ys, n - 1);
    }
  }

  // ---------------------------------------------------------------------------------
  // The values of an index come from its tokens, one after the other.

  // The parts that tokens change.
  function Valued(s: Index): Index {
    s.(docs := [], sents := [], documentNames := [], sentenceIds := [], mwts := [], emptyNodes := [])
  }

  // What f gives for each element, in one sequence.
  function Flat<X, Y>(f: X -> seq<Y>, xs: seq<X>, n: nat): seq<Y>
    requires n <= |xs|
  {
    if n == 0 then [] else Flat(f, xs, n - 1) + f(xs[n - 1])
  }

  function OwnTokens(x: Sentence): seq<Token> {
    x.tokens
  }

  function SentenceTokens(d: Document): seq<Token> {
    Flat(OwnTokens, d.sentences, |d.sentences|)
  }

  // All tokens of the documents, in order.
  function TokensOf(ds: seq<Document>): seq<Token> {
    Flat(SentenceTokens, ds, |ds|)
  }

  // Adding elements one by one is adding all that is in them.
  lemma {:induction false} FoldFlat<X(!new), Y>(
      m: Index -> Index, f: (Index, X) -> Index,
      g: (Index, Y) -> Index, inner: X -> seq<Y>, s: Index, xs: seq<X>, n: nat)
    requires n <= |xs|
    requires forall t, x {:trigger m(f(t, x))} :: m(f(t, x)) == Fold(g, m(t), inner(x), |inner(x)|)
    ensures m(Fold(f, s, xs, n)) == Fold(g, m(s), Flat(inner, xs, n), |Flat(inner, xs, n)|)
  {
    if n > 0 {
      FoldFlat(m, f, g, inner, s, xs, n - 1);
      FoldAppend(g, m(s), Flat(inner, xs, n - 1), inner(xs[n - 1]), |inner(xs[n - 1])|);
    }
  }

  lemma ValuedStepped(s: Index, ws: seq<Write>, tight: bool)
    ensures Valued(Stepped(s, ws, tight)) == Stepped(Valued(s), ws, tight)
  {
    forall t, w
      ensures Valued(Applied(t, w)) == Applied(Valued(t), w)
    {
    }
    FoldCommutes(Valued, Applied, Applied, s, ws, |ws|);
  }

  lemma ValuedTokens(o: Options, s: Index, ts: seq<Token>)
    ensures Valued(Fold(TokenStep(o), s, ts, |ts|)) == Fold(TokenStep(o), Valued(s), ts, |ts|)
  {
    var step := TokenStep(o);
    forall t, x
      ensures Valued(step(t, x)) == step(Valued(t), x)
    {
      ValuedStepped(t, Writes(x, o.decompose), x.spaceAfterNo);
    }
    FoldCommutes(Valued, step, step, s, ts, |ts|);
  }

  lemma ValuedClosed(s: Index, nodes: seq<Text>, start: nat, id: Text)
    ensures Valued(Closed(s, nodes, start, id)) == Valued(s)
  {
    FoldInvariant(Valued, AddedNode, s, nodes, |nodes|);
  }

  lemma ValuedPlaced(s: Index, start: nat, rs: seq<Range>)
    ensures Valued(Fold(From(PlaceMwt, start), s, rs, |rs|)) == Valued(s)
  {
    FoldInvariant(Valued, From(PlaceMwt, start), s, rs, |rs|);
  }

  lemma ValuedSentence(o: Options, s: Index, x: Sentence, name: Text, rank: nat)
    ensures Valued(AddedSentence(o, s, x, name, rank)) == Fold(TokenStep(o), Valued(s), x.tokens, |x.tokens|)
  {
    var t := Fold(TokenStep(o), s, x.tokens, |x.tokens|);
    ValuedTokens(o, s, x.tokens);
    ValuedPlaced(t, s.position, x.mwts);
    ValuedClosed(Fold(From(PlaceMwt, s.position), t, x.mwts, |x.mwts|), x.emptyNodes, s.position,
      IdOf(x, name, rank, o.decimal));
  }

  function RankedTokens(x: (Sentence, nat)): seq<Token> {
    x.0.tokens
  }

  lemma {:induction false} FlatSame<X, Z, Y>(f: X -> seq<Y>, g: Z -> seq<Y>, xs: seq<X>, zs: seq<Z>, n: nat)
    requires n <= |xs| == |zs| && forall i :: 0 <= i < |xs| ==> f(xs[i]) == g(zs[i])
    ensures Flat(f, xs, n) == Flat(g, zs, n)
  {
    if n > 0 {
      FlatSame(f, g, xs, zs, n - 1);
    }
  }

  lemma ValuedDocument(o: Options, s: Index, d: Document)
    ensures Valued(Added(o, s, d)) == Fold(TokenStep(o), Valued(s), SentenceTokens(d), |SentenceTokens(d)|)
  {
    var step, xs := SentenceStep(o, d.name), Ranked(d.sentences);
    forall t, x
      ensures Valued(step(t, x)) == Fold(TokenStep(o), Valued(t), RankedTokens(x), |RankedTokens(x)|)
    {
      ValuedSentence(o, t, x.0, d.name, x.1);
    }
    FoldFlat(Valued, step, TokenStep(o), RankedTokens, s, xs, |xs|);
    FlatSame(RankedTokens, OwnTokens, xs, d.sentences, |xs|);
  }

  lemma ValuedDocuments(o: Options, s: Index, ds: seq<Document>, n: nat)
    requires n <= |ds|
    ensures var ts := Flat(SentenceTokens, ds, n);
      Valued(Fold(DocumentStep(o), s, ds, n)) == Fold(TokenStep(o), Valued(s), ts, |ts|)
  {
    var step := DocumentStep(o);
    forall t, d
      ensures Valued(step(t, d)) == Fold(TokenStep(o), Valued(t), SentenceTokens(d), |SentenceTokens(d)|)
    {
      ValuedDocument(o, t, d);
    }
    FoldFlat(Valued, step, TokenStep(o), SentenceTokens, s, ds, n);
  }

  // Documents and sentences leave no trace in the values: they are those of the tokens alone.
  lemma BuiltFromTokens(o: Options, withForward: bool, ds: seq<Document>)
    ensures Valued(Built(o, Empty(withForward), ds)) ==
      Fold(TokenStep(o), Empty(withForward), TokensOf(ds), |TokensOf(ds)|)
  {
    ValuedDocuments(o, Empty(withForward), ds, |ds|);
    assert Valued(Empty(withForward)) == Empty(withForward);
  }

  lemma {:induction false} TokensCount(o: Options, s: Index, ts: seq<Token>, n: nat)
    requires n <= |ts|
    ensures Fold(TokenStep(o), s, ts, n).position == s.position + n
  {
    if n > 0 {
      TokensCount(o, s, ts, n - 1);
      var t, x := Fold(TokenStep(o), s, ts, n - 1), ts[n - 1];
      SteppedSkeleton(t, Writes(x, o.decompose), x.spaceAfterNo);
      assert TokenStep(o)(t, x).position == Skeleton(TokenStep(o)(t, x)).position;
    }
  }

  // ---------------------------------------------------------------------------------
  // Positions and spans.

  // The fields that annotations leave alone.
  function Skeleton(s: Index): Index {
    Index(map[], map[], None, s.docs, s.sents, [], s.position, s.documentNames, s.sentenceIds, s.mwts, {}, [])
  }

  lemma {:induction false} FoldSkeleton<X(!new)>(f: (Index, X) -> Index, s: Index, xs: seq<X>, n: nat)
    requires n <= |xs| && forall t, x :: Skeleton(f(t, x)) == Skeleton(t)
    ensures Skeleton(Fold(f, s, xs, n)) == Skeleton(s)
  {
    if n > 0 {
      FoldSkeleton(f, s, xs, n - 1);
    }
  }

  lemma SteppedSkeleton(s: Index, ws: seq<Write>, tight: bool)
    ensures Skeleton(Stepped(s, ws, tight)) == Skeleton(s).(position := s.position + 1)
  {
    FoldSkeleton(Applied, s, ws, |ws|);
    SamePosition(s, Fold(Applied, s, ws, |ws|));
  }

  lemma SamePosition(s: Index, t: Index)
    requires Skeleton(t) == Skeleton(s)
    ensures t.position == s.position && t.docs == s.docs && t.sents == s.sents && t.documentNames == s.documentNames
    ensures t.sentenceIds == s.sentenceIds && t.mwts == s.mwts
  {
  }

  lemma {:induction false} TokensSkeleton(step: (Index, Token) -> Index, s: Index, ts: seq<Token>, n: nat)
    requires n <= |ts| && forall i, t :: Skeleton(step(i, t)) == Skeleton(i).(position := i.position + 1)
    ensures Skeleton(Fold(step, s, ts, n)) == Skeleton(s).(position := s.position + n)
  {
    if n > 0 {
      TokensSkeleton(step, s, ts, n - 1);
    }
  }

  // The multiword tokens of a sentence, with positions counted in the corpus.
  function PlacedAll(start: nat, rs: seq<Range>): (r: seq<Mwt.Entry>)
    ensures |r| == |rs| && forall i :: 0 <= i < |r| ==> r[i] == Placed(start, rs[i])
  {
    seq(|rs|, i requires 0 <= i < |rs| => Placed(start, rs[i]))
  }

  lemma {:induction false} MwtSpans(f: (Index, Range) -> Index, start: nat, s: Index, rs: seq<Range>, n: nat)
    requires n <= |rs| && forall i, r :: f(i, r) == PlaceMwt(start, i, r)
    ensures var t := Fold(f, s, rs, n);
      t == s.(mwts := s.mwts + PlacedAll(start, rs[..n]))
  {
    if n > 0 {
      MwtSpans(f, start, s, rs, n - 1);
      assert PlacedAll(start, rs[..n]) == PlacedAll(start, rs[..n - 1]) + [Placed(start, rs[n - 1])];
    } else {
      assert s.mwts + PlacedAll(start, rs[..0]) == s.mwts;
    }
  }

  lemma NodeSkeleton(s: Index, nodes: seq<Text>)
    ensures Skeleton(Fold(AddedNode, s, nodes, |nodes|)) == Skeleton(s)
  {
    FoldSkeleton(AddedNode, s, nodes, |nodes|);
  }

  // What a sentence adds: its tokens' positions, one span and one id unless it is empty, and
  // its multiword tokens.
  ghost predicate SentenceAdds(s: Index, r: Index, x: Sentence, id: Text) {
    && r.position == s.position + |x.tokens| && r.docs == s.docs && r.documentNames == s.documentNames
    && r.sents == (if x.tokens == [] then s.sents else s.sents + [Span(s.position, r.position)])
    && r.sentenceIds == (if x.tokens == [] then s.sentenceIds else s.sentenceIds + [id])
    && r.mwts == s.mwts + PlacedAll(s.position, x.mwts)
  }

  ghost predicate AddsSome(s: Index, r: Index, x: Sentence) {
    exists id :: SentenceAdds(s, r, x, id)
  }

  lemma ClosedAdds(s: Index, t: Index, x: Sentence, id: Text)
    requires Skeleton(t) == Skeleton(s).(position := s.position + |x.tokens|,
      mwts := s.mwts + PlacedAll(s.position, x.mwts))
    ensures SentenceAdds(s, Closed(t, x.emptyNodes, s.position, id), x, id)
  {
    var nodes := x.emptyNodes;
    NodeSkeleton(t, nodes);
    SamePosition(t, Fold(AddedNode, t, nodes, |nodes|));
    assert t.position == Skeleton(t).position && t.mwts == Skeleton(t).mwts && t.docs == Skeleton(t).docs
        && t.sents == Skeleton(t).sents && t.documentNames == Skeleton(t).documentNames
        && t.sentenceIds == Skeleton(t).sentenceIds;
  }

  lemma SentenceWithAdds(step: (Index, Token) -> Index, s: Index, x: Sentence, id: Text)
    requires forall i, t :: Skeleton(step(i, t)) == Skeleton(i).(position := i.position + 1)
    ensures SentenceAdds(s, SentenceWith(step, PlaceMwt, CloseAs(x.emptyNodes, id), s, x), x, id)
  {
    var t := Fold(step, s, x.tokens, |x.tokens|);
    TokensSkeleton(step, s, x.tokens, |x.tokens|);
    var f := From(PlaceMwt, s.position);
    MwtSpans(f, s.position, t, x.mwts, |x.mwts|);
    assert x.mwts[..|x.mwts|] == x.mwts;
    assert t.mwts == Skeleton(t).mwts;
    ClosedAdds(s, Fold(f, t, x.mwts, |x.mwts|), x, id);
  }

  lemma SentenceSpans(o: Options, s: Index, x: Sentence, name: Text, rank: nat)
    ensures SentenceAdds(s, AddedSentence(o, s, x, name, rank), x, IdOf(x, name, rank, o.decimal))
  {
    forall i, t
      ensures Skeleton(TokenStep(o)(i, t)) == Skeleton(i).(position := i.position + 1)
    {
      SteppedSkeleton(i, Writes(t, o.decompose), t.spaceAfterNo);
    }
    SentenceWithAdds(TokenStep(o), s, x, IdOf(x, name, rank, o.decimal));
  }

  lemma TilesNext(spans: seq<Span>, total: nat, end: nat)
    requires Tiles(spans, total) && total < end
    ensures Tiles(spans + [Span(total, end)], end)
  {
    var r := spans + [Span(total, end)];
    LastEnds(spans, total);
  }

  lemma LastEnds(spans: seq<Span>, total: nat)
    requires Tiles(spans, total)
    ensures forall i :: 0 <= i < |spans| ==> spans[i].end <= total
  {
    forall i | 0 <= i < |spans|
      ensures spans[i].end <= total
    {
      var last := spans[|spans| - 1];
      assert i < |spans| - 1 ==> spans[i].end <= last.start;
    }
  }

  ghost predicate Tiled(s: Index) {
    Tiles(s.docs, s.position) && Tiles(s.sents, s.position) && |s.docs| == |s.documentNames| &&
      |s.sents| == |s.sentenceIds|
  }

  // In the middle of a document.
  ghost predicate HalfTiled(s: Index, docs: seq<Span>, names: seq<Text>, start: nat) {
    && s.docs == docs && s.documentNames == names && start <= s.position
    && Tiles(s.sents, s.position) && |s.sents| == |s.sentenceIds|
  }

  lemma SentenceTiled(s: Index, r: Index, x: Sentence, id: Text)
    requires Tiles(s.sents, s.position) && |s.sents| == |s.sentenceIds| && SentenceAdds(s, r, x, id)
    ensures HalfTiled(r, s.docs, s.documentNames, s.position)
  {
    if x.tokens != [] {
      TilesNext(s.sents, s.position, r.position);
    }
  }

  lemma SentencesTiled(step: (Index, (Sentence, nat)) -> Index, s: Index, xs: seq<(Sentence, nat)>, n: nat)
    requires Tiled(s) && n <= |xs|
    requires forall t, x :: AddsSome(t, step(t, x), x.0)
    ensures HalfTiled(Fold(step, s, xs, n), s.docs, s.documentNames, s.position)
  {
    var p := (t: Index) => HalfTiled(t, s.docs, s.documentNames, s.position);
    forall t, x | p(t)
      ensures p(step(t, x))
    {
      assert AddsSome(t, step(t, x), x.0);
      var id :| SentenceAdds(t, step(t, x), x.0, id);
      SentenceTiled(t, step(t, x), x.0, id);
    }
    FoldKeeps(p, step, s, xs, n);
  }

  lemma DocumentWithTiled(step: (Index, (Sentence, nat)) -> Index, s: Index, xs: seq<(Sentence, nat)>, name: Text)
    requires Tiled(s)
    requires forall t, x :: AddsSome(t, step(t, x), x.0)
    ensures Tiled(DocumentWith(step, s, xs, name))
  {
    var t := Fold(step, s, xs, |xs|);
    SentencesTiled(step, s, xs, |xs|);
    if t.position > s.position {
      TilesNext(s.docs, s.position, t.position);
    }
  }

  // Document and sentence spans tile the positions, and go with their names and ids.
  lemma DocumentTiled(o: Options, s: Index, d: Document)
    requires Tiled(s)
    ensures Tiled(Added(o, s, d))
  {
    var step := SentenceStep(o, d.name);
    forall t, x
      ensures AddsSome(t, step(t, x), x.0)
    {
      SentenceSpans(o, t, x.0, d.name, x.1);
    }
    DocumentWithTiled(step, s, Ranked(d.sentences), d.name);
  }

  lemma {:induction false} FoldTiled<X(!new)>(f: (Index, X) -> Index, s: Index, xs: seq<X>, n: nat)
    requires n <= |xs| && Tiled(s) && forall t, x :: Tiled(t) ==> Tiled(f(t, x))
    ensures Tiled(Fold(f, s, xs, n))
  {
    if n > 0 {
      FoldTiled(f, s, xs, n - 1);
    }
  }

  lemma BuiltTiled(o: Options, withForward: bool, ds: seq<Document>)
    ensures Tiled(Built(o, Empty(withForward), ds))
  {
    forall t, d | Tiled(t)
      ensures Tiled(DocumentStep(o)(t, d))
    {
      DocumentTiled(o, t, d);
    }
    FoldTiled(DocumentStep(o), Empty(withForward), ds, |ds|);
  }

  // ---------------------------------------------------------------------------------
  // Multiword tokens.

  predicate Fits(r: Range, n: nat) {
    r.first <= r.last <= n
  }

  // Ranges as the reader delivers them: ascending, not overlapping, within the sentence.
  predicate RangesOk(x: Sentence) {
    && (forall i :: 0 <= i < |x.mwts| ==> Fits(x.mwts[i], |x.tokens|))
    && (forall i, j :: 0 <= i < j < |x.mwts| ==> x.mwts[i].last < x.mwts[j].first)
  }

  predicate ReadWell(d: Document) {
    forall i :: 0 <= i < |d.sentences| ==> RangesOk(d.sentences[i])
  }

  ghost predicate MwtsOk(s: Index) {
    Mwt.Sorted(s.mwts) && forall i :: 0 <= i < |s.mwts| ==> s.mwts[i].end <= s.position
  }

  lemma SentenceMwts(s: Index, r: Index, x: Sentence, id: Text)
    requires MwtsOk(s) && RangesOk(x) && SentenceAdds(s, r, x, id)
    ensures MwtsOk(r)
  {
    var more := PlacedAll(s.position, x.mwts);
    forall i | 0 <= i < |more|
      ensures s.position <= more[i].start < more[i].end <= r.position
    {
      assert more[i] == Placed(s.position, x.mwts[i]);
    }
    forall i, j | 0 <= i < j < |more|
      ensures more[i].end <= more[j].start
    {
      assert more[i] == Placed(s.position, x.mwts[i]) && more[j] == Placed(s.position, x.mwts[j]);
    }
  }

  lemma DocumentMwts(o: Options, s: Index, d: Document)
    requires MwtsOk(s) && ReadWell(d)
    ensures MwtsOk(Added(o, s, d))
  {
    var step := SentenceStep(o, d.name);
    var ok := (x: (Sentence, nat)) => RangesOk(x.0);
    forall t, x | MwtsOk(t) && ok(x)
      ensures MwtsOk(step(t, x))
    {
      SentenceSpans(o, t, x.0, d.name, x.1);
      SentenceMwts(t, step(t, x), x.0, IdOf(x.0, d.name, x.1, o.decimal));
    }
    var xs := Ranked(d.sentences);
    FoldKeepsIf(MwtsOk, ok, step, s, xs, |xs|);
  }

  // The multiword tokens of a built index are sorted, disjoint and not empty, as the searches
  // over them expect.
  lemma BuiltMwtsSorted(o: Options, withForward: bool, ds: seq<Document>)
    requires forall i :: 0 <= i < |ds| ==> ReadWell(ds[i])
    ensures Mwt.Sorted(Built(o, Empty(withForward), ds).mwts)
  {
    var step := DocumentStep(o);
    forall t, d | MwtsOk(t) && ReadWell(d)
      ensures MwtsOk(step(t, d))
    {
      DocumentMwts(o, t, d);
    }
    FoldKeepsIf(MwtsOk, ReadWell, step, Empty(withForward), ds, |ds|);
  }

  // ---------------------------------------------------------------------------------
  // Merging the indexes of the files.

  function Dropped(s: Index): Index {
    s.(forward := None)
  }

  lemma DroppedApplied(s: Index, w: Write)
    ensures Dropped(Applied(s, w)) == Applied(Dropped(s), w)
  {
  }

  lemma DroppedStepped(s: Index, ws: seq<Write>, tight: bool)
    ensures Dropped(Stepped(s, ws, tight)) == Stepped(Dropped(s), ws, tight)
  {
    forall t, w
      ensures Dropped(Applied(t, w)) == Applied(Dropped(t), w)
    {
      DroppedApplied(t, w);
    }
    FoldCommutes(Dropped, Applied, Applied, s, ws, |ws|);
  }

  lemma DroppedClosed(s: Index, nodes: seq<Text>, start: nat, id: Text)
    ensures Dropped(Closed(s, nodes, start, id)) == Closed(Dropped(s), nodes, start, id)
  {
    FoldCommutes(Dropped, AddedNode, AddedNode, s, nodes, |nodes|);
  }

  lemma DroppedSentence(o: Options, s: Index, x: Sentence, name: Text, rank: nat)
    ensures Dropped(AddedSentence(o, s, x, name, rank)) == AddedSentence(o, Dropped(s), x, name, rank)
  {
    var id := IdOf(x, name, rank, o.decimal);
    forall t, x
      ensures Dropped(TokenStep(o)(t, x)) == TokenStep(o)(Dropped(t), x)
    {
      DroppedStepped(t, Writes(x, o.decompose), x.spaceAfterNo);
    }
    forall t, start: nat
      ensures Dropped(CloseAs(x.emptyNodes, id)(t, start)) == CloseAs(x.emptyNodes, id)(Dropped(t), start + 0)
    {
      DroppedClosed(t, x.emptyNodes, start, id);
    }
    SentenceWithCommutes(Dropped, 0, TokenStep(o), PlaceMwt, CloseAs(x.emptyNodes, id), s, x);
  }

  // Whether forward values are collected makes no difference to the rest of the index.
  lemma DroppedDocument(o: Options, s: Index, d: Document)
    ensures Dropped(Added(o, s, d)) == Added(o, Dropped(s), d)
  {
    forall t, x
      ensures Dropped(SentenceStep(o, d.name)(t, x)) == SentenceStep(o, d.name)(Dropped(t), x)
    {
      DroppedSentence(o, t, x.0, d.name, x.1);
    }
    DocumentWithCommutes(Dropped, 0, SentenceStep(o, d.name), s, Ranked(d.sentences), d.name);
  }

  lemma DroppedBuilt(o: Options, ds: seq<Document>)
    ensures Dropped(Built(o, Empty(true), ds)) == Built(o, Empty(false), ds)
  {
    var step := DocumentStep(o);
    forall t, d
      ensures Dropped(step(t, d)) == step(Dropped(t), d)
    {
      DroppedDocument(o, t, d);
    }
    FoldCommutes(Dropped, step, step, Empty(true), ds, |ds|);
    assert Dropped(Empty(true)) == Empty(false);
  }

  // The index of one file, with its forward values taken out, merged into the combined one;
  // a file without tokens is skipped.
  function MergeFile(o: Options): (Index, Document) -> Index {
    (s: Index, d: Document) =>
      var file := Added(o, Empty(true), d);
      if file.position > 0 then Merged(s, Dropped(file)) else s
  }

  ghost predicate Combining(s: Index) {
    s.forward.None? && forall l :: l in BASE ==> l in s.layerNames
  }

  lemma MergedCombines(a: Index, b: Index)
    requires Combining(a)
    ensures Combining(Merged(a, b))
  {
    forall l | l in BASE
      ensures l in Merged(a, b).layerNames
    {
      MergedHas(a.layerNames, b.layerNames, l);
    }
  }

  // Nothing is added for a document without tokens.
  lemma TokenlessSentence(o: Options, s: Index, x: Sentence, name: Text, rank: nat)
    requires x.tokens == [] && x.mwts == []
    ensures AddedSentence(o, s, x, name, rank) == s
  {
  }

  lemma NeverFits(r: Range)
    ensures !Fits(r, 0)
  {
  }

  lemma NoRanges(x: Sentence)
    requires RangesOk(x) && x.tokens == []
    ensures x.mwts == []
  {
    if x.mwts != [] {
      NeverFits(x.mwts[0]);
    }
  }

  lemma {:induction false} TokenlessSentences(o: Options, s: Index, xs: seq<Sentence>, name: Text, n: nat)
    requires n <= |xs| && Flat(OwnTokens, xs, n) == [] && forall i :: 0 <= i < n ==> RangesOk(xs[i])
    ensures Fold(SentenceStep(o, name), s, Ranked(xs), n) == s
  {
    if n > 0 {
      TokenlessSentences(o, s, xs, name, n - 1);
      var x := xs[n - 1];
      assert x.tokens == [];
      NoRanges(x);
      TokenlessSentence(o, s, x, name, RankAfter(xs, n - 1));
      assert Ranked(xs)[n - 1] == (x, RankAfter(xs, n - 1));
    }
  }

  lemma TokenlessDocument(o: Options, s: Index, d: Document)
    requires Added(o, Empty(true), d).position == 0 && ReadWell(d)
    ensures Added(o, s, d) == s
  {
    var ts := SentenceTokens(d);
    ValuedDocument(o, Empty(true), d);
    TokensCount(o, Valued(Empty(true)), ts, |ts|);
    assert Valued(Added(o, Empty(true), d)).position == 0;
    TokenlessSentences(o, s, d.sentences, d.name, |d.sentences|);
  }

  lemma FileMerges(o: Options, a: Index, d: Document)
    requires Combining(a) && ReadWell(d)
    ensures MergeFile(o)(a, d) == DocumentStep(o)(a, d) && Combining(MergeFile(o)(a, d))
  {
    var file := Added(o, Empty(true), d);
    if file.position > 0 {
      DroppedDocument(o, Empty(true), d);
      assert Dropped(Empty(true)) == Empty(false);
      MergedCombines(a, Dropped(file));
      MergedWithEmpty(a);
      DocumentCommutes(o, a, Empty(false), d);
    } else {
      TokenlessDocument(o, a, d);
    }
  }

  lemma {:induction false} FoldSame(f: (Index, Document) -> Index, g: (Index, Document) -> Index, s: Index,
      ds: seq<Document>, n: nat)
    requires n <= |ds| && Combining(s) && forall i :: 0 <= i < n ==> ReadWell(ds[i])
    requires forall a, d :: Combining(a) && ReadWell(d) ==> f(a, d) == g(a, d) && Combining(f(a, d))
    ensures Fold(f, s, ds, n) == Fold(g, s, ds, n) && Combining(Fold(f, s, ds, n))
  {
    if n > 0 {
      FoldSame(f, g, s, ds, n - 1);
    }
  }

  // Building every file on its own and merging gives the index of all documents.
  lemma FilesMerge(o: Options, ds: seq<Document>)
    requires forall i :: 0 <= i < |ds| ==> ReadWell(ds[i])
    ensures Fold(MergeFile(o), Empty(false), ds, |ds|) == Built(o, Empty(false), ds)
  {
    forall a, d | Combining(a) && ReadWell(d)
      ensures MergeFile(o)(a, d) == DocumentStep(o)(a, d) && Combining(MergeFile(o)(a, d))
    {
      FileMerges(o, a, d);
    }
    FoldSame(MergeFile(o), DocumentStep(o), Empty(false), ds, |ds|);
  }
}
