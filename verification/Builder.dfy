// crates/montre-build/src/builder.rs: the object that collects an index, token by token and
// file by file.
module Builder {
  import opened Core
  import opened Bytes
  import opened Sink
  import opened SinkFacts
  import F = Forward
  import L = Layers
  import Mwt

  // ---------------------------------------------------------------------------------
  // Merging the parts, in the arbitrary order of hash maps.

  lemma MergeNone<V>(f: (V, V) -> V, none: V, a: map<Text, V>, b: map<Text, V>)
    ensures MergeMaps(f, none, a, b - b.Keys) == a
  {
    assert b - b.Keys == map[];
    MergedWithNothing(f, none, a);
  }

  lemma MergeAll<K, V>(b: map<K, V>, rest: set<K>)
    requires rest == {}
    ensures b - rest == b
  {
  }

  // One more entry of b put into what was merged before.
  lemma MergeOne<V>(f: (V, V) -> V, none: V, a: map<Text, V>, b: map<Text, V>, rest: set<Text>, k: Text)
    requires k in rest && rest <= b.Keys && f(Lookup(a, k, none), none) == Lookup(a, k, none)
    ensures var r := MergeMaps(f, none, a, b - rest);
      MergeMaps(f, none, a, b - (rest - {k})) == r[k := f(Lookup(r, k, none), b[k])]
  {
    assert b - (rest - {k}) == (b - rest)[k := b[k]];
    MergeMapsNext(f, none, a, b - rest, k, b[k]);
    MergedAt(f, none, a, b - rest, k);
  }

  lemma JoinedEntry(r: Bitmaps, v: Text, s: set<nat>, offset: nat)
    ensures JoinShifted(offset)(Lookup(r, v, {}), s) == if v in r then r[v] + Shifted(s, offset) else Shifted(s, offset)
  {
    assert {} + Shifted(s, offset) == Shifted(s, offset);
  }

  method MergeBitmaps(a: Bitmaps, b: Bitmaps, offset: nat) returns (r: Bitmaps)
    ensures r == MergeValues(a, b, offset)
  {
    r := a;
    var rest := b.Keys;
    ghost var f := JoinShifted(offset);
    MergeNone(f, {}, a, b);
    while rest != {}
      invariant rest <= b.Keys && r == MergeValues(a, b - rest, offset)
      decreases |rest|
    {
      var v :| v in rest;
      assert f(Found(a, v), {}) == Found(a, v);
      MergeOne(f, {}, a, b, rest, v);
      var shifted := Shifted(b[v], offset);
      JoinedEntry(r, v, b[v], offset);
      r := r[v := if v in r then r[v] + shifted else shifted];
      rest := rest - {v};
    }
    MergeAll(b, rest);
  }

  method MergeInvertedInto(a: Inverted, b: Inverted, offset: nat) returns (r: Inverted)
    ensures r == MergeInverted(a, b, offset)
  {
    r := a;
    var rest := b.Keys;
    ghost var f := ValuesMerger(offset);
    MergeNone(f, map[], a, b);
    while rest != {}
      invariant rest <= b.Keys && r == MergeInverted(a, b - rest, offset)
      decreases |rest|
    {
      var l :| l in rest;
      MergedWithNothing(JoinShifted(offset), {}, Values(a, l));
      MergeOne(f, map[], a, b, rest, l);
      var merged := MergeBitmaps(if l in r then r[l] else map[], b[l], offset);
      r := r[l := merged];
      rest := rest - {l};
    }
    MergeAll(b, rest);
  }

  method AddTerms(a: seq<Text>, b: seq<Text>) returns (r: seq<Text>)
    ensures r == MergeTerms(a, b)
  {
    r := a;
    for i := 0 to |b|
      invariant r == MergeTerms(a, b[..i])
    {
      assert b[..i + 1][..i] == b[..i];
      if b[i] !in r {
        r := r + [b[i]];
      }
    }
    assert b[..|b|] == b;
  }

  method MergeLexiconInto(a: Lexicon, b: Lexicon) returns (r: Lexicon)
    ensures r == MergeLexicon(a, b)
  {
    r := a;
    var rest := b.Keys;
    MergeNone(MergeTerms, [], a, b);
    while rest != {}
      invariant rest <= b.Keys && r == MergeLexicon(a, b - rest)
      decreases |rest|
    {
      var l :| l in rest;
      MergeOne(MergeTerms, [], a, b, rest, l);
      var merged := AddTerms(if l in r then r[l] else [], b[l]);
      r := r[l := merged];
      rest := rest - {l};
    }
    MergeAll(b, rest);
  }

  // Appends the elements of b, each changed by f.
  method ExtendWith<A>(a: seq<A>, f: A -> A, b: seq<A>) returns (r: seq<A>)
    ensures r == a + Each(f, b, |b|)
  {
    r := a;
    for i := 0 to |b|
      invariant r == a + Each(f, b, i)
    {
      r := r + [f(b[i])];
    }
  }

  // ---------------------------------------------------------------------------------
  // Numbers of forward columns.

  lemma LastAdded(names: seq<Layer>, more: seq<Layer>, l: Layer)
    requires l !in more
    ensures LastIn(names + more, l) == LastIn(names, l)
  {
    var i, j := LastIn(names + more, l), LastIn(names, l);
    assert forall k :: 0 <= k < |names| ==> (names + more)[k] == names[k];
    assert forall k :: |names| <= k < |names + more| ==> (names + more)[k] in more;
    if j.Some? {
      assert (names + more)[j.value] == l;
      assert l in names + more;
    }
  }

  lemma LastIsNew(names: seq<Layer>, l: Layer)
    ensures LastIn(names + [l], l) == Some(|names|)
  {
    assert (names + [l])[|names|] == l;
  }

  lemma LaidLayers(lay: F.Lay, t: F.Store, x: Layer, src: seq<L.Value>)
    ensures F.LaidStore(lay, t, x, src).layers == WithName(t.layers, x)
  {
  }

  function WithName(names: seq<Layer>, x: Layer): seq<Layer> {
    if x in names then names else names + [x]
  }

  lemma MoreNames(names: seq<Layer>, more: seq<Layer>, x: Layer) returns (r: seq<Layer>)
    requires forall l :: l in more ==> l !in names
    ensures WithName(names + more, x) == names + r && forall l :: l in r ==> l !in names
  {
    r := more;
    if x !in names + more {
      r := more + [x];
      assert (names + more) + [x] == names + r;
    }
  }

  // The names that a merge of forward columns appends.
  lemma {:induction false} MergedLayers(lay: F.Lay, s: F.Store, other: F.Store, k: nat) returns (more: seq<Layer>)
    requires k <= |other.layers|
    ensures F.StoreUpTo(lay, s, other, k).layers == s.layers + more && forall l :: l in more ==> l !in s.layers
  {
    if k == 0 {
      more := [];
      assert s.layers + [] == s.layers;
    } else {
      more := MergedLayers(lay, s, other, k - 1);
      LaidLayers(lay, F.StoreUpTo(lay, s, other, k - 1), other.layers[k - 1], other.data[k - 1]);
      more := MoreNames(s.layers, more, other.layers[k - 1]);
    }
  }

  function Names(ls: seq<(Layer, nat)>): (r: seq<Layer>)
    ensures |r| == |ls| && forall i :: 0 <= i < |r| ==> r[i] == ls[i].0
  {
    seq(|ls|, i requires 0 <= i < |ls| => ls[i].0)
  }

  // Every layer has the number of the last column of its name.
  ghost predicate Numbered(ls: seq<(Layer, nat)>, columns: seq<Layer>) {
    forall i :: 0 <= i < |ls| ==> LastIn(columns, ls[i].0) == Some(ls[i].1)
  }

  lemma NumberedNext(ls: seq<(Layer, nat)>, columns: seq<Layer>, l: Layer)
    requires Numbered(ls, columns) && l !in Names(ls)
    ensures Numbered(ls + [(l, |columns|)], columns + [l])
  {
    LastIsNew(columns, l);
    forall i | 0 <= i < |ls|
      ensures LastIn(columns + [l], ls[i].0) == Some(ls[i].1)
    {
      assert Names(ls)[i] == ls[i].0;
      LastAdded(columns, [l], ls[i].0);
    }
  }

  lemma NumberedMore(ls: seq<(Layer, nat)>, columns: seq<Layer>, more: seq<Layer>)
    requires Numbered(ls, columns) && forall l :: l in more ==> l !in columns
    ensures Numbered(ls, columns + more)
  {
    forall i | 0 <= i < |ls|
      ensures LastIn(columns + more, ls[i].0) == Some(ls[i].1)
    {
      LastAdded(columns, more, ls[i].0);
    }
  }

  // layer_indices.iter().find(..)
  function NumberOf(ls: seq<(Layer, nat)>, l: Layer): (r: Option<nat>)
    ensures r.Some? ==> exists i :: 0 <= i < |ls| && ls[i] == (l, r.value)
    ensures r.Some? <==> l in Names(ls)
  {
    if ls == [] then None
    else if ls[0].0 == l then
      assert Names(ls)[0] == l;
      Some(ls[0].1)
    else
      assert Names(ls) == [ls[0].0] + Names(ls[1..]);
      assert forall i :: 0 <= i < |ls| - 1 ==> ls[1..][i] == ls[i + 1];
      NumberOf(ls[1..], l)
  }

  // ---------------------------------------------------------------------------------

  class IndexSink {
    var inverted: Inverted
    var lexicon: Lexicon
    var forward: F.InMemoryForward?
    var docs: seq<Span>
    var sents: seq<Span>
    var layerIndices: seq<(Layer, nat)>
    var position: nat
    var documentNames: seq<Text>
    var sentenceIds: seq<Text>
    var mwts: seq<Mwt.Entry>
    var spacing: set<nat>
    var emptyNodes: seq<EmptyNode>

    ghost predicate Valid()
      reads this, forward
    {
      forward != null ==> forward.Valid() && Numbered(layerIndices, forward.layers)
    }

    function View(): Index
      requires Valid()
      reads this, forward
    {
      Index(
        inverted, lexicon, if forward == null then None else Some(forward.View()), docs, sents, Names(layerIndices),
        position, documentNames, sentenceIds, mwts, spacing, emptyNodes)
    }

    constructor (withForward: bool)
      ensures Valid() && View() == Empty(withForward) && (forward != null ==> fresh(forward))
    {
      inverted, lexicon, forward := map[], map[], null;
      docs, sents, layerIndices, position := [], [], [], 0;
      documentNames, sentenceIds, mwts, spacing, emptyNodes := [], [], [], {}, [];
      new;
      if withForward {
        forward := new F.InMemoryForward();
      }
      for i := 0 to |BASE|
        invariant Valid() && (forward != null ==> fresh(forward)) && (forward != null <==> withForward)
        invariant Names(layerIndices) == BASE[..i]
        invariant forward != null ==>
          forward.layers == BASE[..i] && forward.data == Blank(BASE[..i]).data && forward.tokenCount == 0
        invariant inverted == map[] && lexicon == map[] && docs == [] && sents == [] && position == 0
        invariant documentNames == [] && sentenceIds == [] && mwts == [] && spacing == {} && emptyNodes == []
      {
        BaseNameIsNew(i);
        assert BASE[..i + 1] == BASE[..i] + [BASE[i]];
        AddName(BASE[i]);
        assert Blank(BASE[..i + 1]).data == Blank(BASE[..i]).data + [[]];
      }
      assert BASE[..|BASE|] == BASE;
    }

    static lemma BaseNameIsNew(i: nat)
      requires i < |BASE|
      ensures BASE[i] !in BASE[..i]
    {
      assert BASE[0][0] == 119 && BASE[1][0] == 108 && BASE[2][0] == 117 && BASE[3][0] == 120 && BASE[4][0] == 102;
      assert BASE[5][0] == 104 && BASE[6][3] == 114 && BASE[7][3] == 115 && BASE[6][0] == 100 && BASE[7][0] == 100;
    }

    // A new layer name, with a new forward column where there are any.
    method AddName(name: Layer)
      requires Valid() && name !in Names(layerIndices)
      modifies this`layerIndices, forward
      ensures Valid() && View() == Ensured(old(View()), name)
      ensures Names(layerIndices) == Names(old(layerIndices)) + [name]
    {
      var idx := 0;
      if forward != null {
        NumberedNext(layerIndices, forward.layers, name);
        idx := forward.AddLayer(name);
      }
      layerIndices := layerIndices + [(name, idx)];
      assert Names(layerIndices) == Names(old(layerIndices)) + [name];
    }

    method SetCell(layer: Layer, value: L.Value)
      requires Valid()
      modifies forward
      ensures Valid() && View() ==
        old(View()).(forward := SetIn(old(View()).forward, old(View()).layerNames, layer, position, value))
    {
      var i := NumberOf(layerIndices, layer);
      if forward != null && i.Some? {
        forward.Set(i.value, position, value);
      }
    }

    // add_token_annotation
    method AddTokenAnnotation(layer: Layer, value: Text)
      requires Valid()
      modifies this, forward
      ensures Valid() && forward == old(forward) && View() == Annotated(old(View()), layer, L.Str(value))
    {
      if !ForwardOnly(layer) {
        var values := if layer in inverted then inverted[layer] else map[];
        inverted := inverted[layer := values[value := (if value in values then values[value] else {}) + {position}]];
        var terms := if layer in lexicon then lexicon[layer] else [];
        lexicon := lexicon[layer := if value in terms then terms else terms + [value]];
      }
      SetCell(layer, L.Str(value));
    }

    // add_token_int_annotation
    method AddTokenIntAnnotation(layer: Layer, value: int)
      requires Valid()
      modifies this, forward
      ensures Valid() && forward == old(forward) && View() == Annotated(old(View()), layer, L.Num(value))
    {
      SetCell(layer, L.Num(value));
    }

    // One annotation that a token may lack.
    method AddOptional(layer: Layer, value: Option<Text>)
      requires Valid()
      modifies this, forward
      ensures Valid() && forward == old(forward)
      ensures var ws := Optional(layer, value); View() == Fold(Applied, old(View()), ws, |ws|)
    {
      if value.Some? {
        OneApplied(View(), Write(layer, L.Str(value.value), false));
        AddTokenAnnotation(layer, value.value);
      }
    }

    static lemma OneApplied(s: Index, w: Write)
      ensures Fold(Applied, s, [w], 1) == Applied(s, w)
    {
      assert Fold(Applied, s, [w], 0) == s;
    }

    // ensure_layer
    method EnsureLayer(name: Layer)
      requires Valid()
      modifies this, forward
      ensures Valid() && forward == old(forward) && View() == Ensured(old(View()), name)
    {
      if name in Names(layerIndices) {
        return;
      }
      AddName(name);
    }

    // One key and its value.
    method DecomposePair(pair: Text)
      requires Valid()
      modifies this, forward
      ensures Valid() && forward == old(forward)
      ensures View() == Fold(Applied, old(View()), PairWrite(pair), |PairWrite(pair)|)
    {
      var i := CutAt(pair, EQUALS);
      if i < |pair| {
        OneApplied(View(), Write(Feature(pair[..i]), L.Str(pair[i + 1..]), true));
        EnsureLayer(Feature(pair[..i]));
        AddTokenAnnotation(Feature(pair[..i]), pair[i + 1..]);
      }
    }

    // The index after the first n pairs.
    static ghost predicate PairStages(stage: nat -> Index, s: Index, pairs: seq<Text>) {
      forall n: nat {:trigger PairWrites(pairs, n)} ::
        n <= |pairs| ==> stage(n) == Fold(Applied, s, PairWrites(pairs, n), |PairWrites(pairs, n)|)
    }

    method DecomposeNext(pair: Text, ghost stage: nat -> Index, ghost s: Index, ghost pairs: seq<Text>, ghost n: nat)
      requires Valid() && n < |pairs| && pair == pairs[n] && PairStages(stage, s, pairs) && View() == stage(n)
      modifies this, forward
      ensures Valid() && forward == old(forward) && View() == stage(n + 1)
    {
      DecomposePair(pair);
      assert PairWrites(pairs, n + 1) == PairWrites(pairs, n) + PairWrite(pair);
      FoldAppend(Applied, s, PairWrites(pairs, n), PairWrite(pair), |PairWrite(pair)|);
    }

    method DecomposeEach(pairs: seq<Text>, ghost stage: nat -> Index, ghost s: Index)
      requires Valid() && PairStages(stage, s, pairs) && View() == stage(0)
      modifies this, forward
      ensures Valid() && forward == old(forward) && View() == stage(|pairs|)
    {
      for n := 0 to |pairs|
        invariant Valid() && forward == old(forward) && View() == stage(n)
      {
        DecomposeNext(pairs[n], stage, s, pairs, n);
      }
    }

    // decompose_feats_annotation
    method DecomposeFeats(feats: Text)
      requires Valid()
      modifies this, forward
      ensures Valid() && forward == old(forward)
      ensures var ws := DecomposedWrites(feats); View() == Fold(Applied, old(View()), ws, |ws|)
    {
      var pairs := Split(feats, BAR);
      ghost var s := View();
      ghost var stage := (n: nat) =>
        if n <= |pairs| then Fold(Applied, s, PairWrites(pairs, n), |PairWrites(pairs, n)|) else s;
      DecomposeEach(pairs, stage, s);
    }

    static lemma FeatsPlain(s: Index, t: Index, feats: Text)
      requires t == Applied(s, Write(FEATS, L.Str(feats), false))
      ensures t == Fold(Applied, s, FeatWrites(Some(feats), false), |FeatWrites(Some(feats), false)|)
    {
      OneApplied(s, Write(FEATS, L.Str(feats), false));
      assert Plain(FEATS, feats) + [] == Plain(FEATS, feats);
    }

    static lemma FeatsDecomposed(s: Index, t: Index, u: Index, feats: Text)
      requires t == Applied(s, Write(FEATS, L.Str(feats), false))
      requires u == Fold(Applied, t, DecomposedWrites(feats), |DecomposedWrites(feats)|)
      ensures u == Fold(Applied, s, FeatWrites(Some(feats), true), |FeatWrites(Some(feats), true)|)
    {
      OneApplied(s, Write(FEATS, L.Str(feats), false));
      FoldAppend(Applied, s, Plain(FEATS, feats), DecomposedWrites(feats), |DecomposedWrites(feats)|);
    }

    method AddFeats(feats: Option<Text>, decompose: bool)
      requires Valid()
      modifies this, forward
      ensures Valid() && forward == old(forward)
      ensures var ws := FeatWrites(feats, decompose); View() == Fold(Applied, old(View()), ws, |ws|)
    {
      if feats.Some? {
        AddTokenAnnotation(FEATS, feats.value);
        ghost var t := View();
        if decompose {
          DecomposeFeats(feats.value);
          FeatsDecomposed(old(View()), t, View(), feats.value);
        } else {
          FeatsPlain(old(View()), t, feats.value);
        }
      }
    }

    method AddHead(head: Option<int>)
      requires Valid()
      modifies this, forward
      ensures Valid() && forward == old(forward)
      ensures var ws := HeadWrites(head); View() == Fold(Applied, old(View()), ws, |ws|)
    {
      if head.Some? {
        OneApplied(View(), Write(HEAD, L.Num(head.value), false));
        AddTokenIntAnnotation(HEAD, head.value);
      }
    }

    // All annotations of a token.
    method AnnotateToken(o: Options, t: Token)
      requires Valid()
      modifies this, forward
      ensures Valid() && forward == old(forward)
      ensures var ws := Writes(t, o.decompose); View() == Fold(Applied, old(View()), ws, |ws|)
    {
      ghost var s := View();
      ghost var a1 := Plain(WORD, t.word);
      OneApplied(s, Write(WORD, L.Str(t.word), false));
      AddTokenAnnotation(WORD, t.word);
      AddOptional(LEMMA, t.base);
      ghost var a2 := Append(s, a1, Optional(LEMMA, t.base));
      AddOptional(UPOS, t.upos);
      ghost var a3 := Append(s, a2, Optional(UPOS, t.upos));
      AddOptional(XPOS, t.xpos);
      ghost var a4 := Append(s, a3, Optional(XPOS, t.xpos));
      AddFeats(t.feats, o.decompose);
      ghost var a5 := Append(s, a4, FeatWrites(t.feats, o.decompose));
      AddHead(t.head);
      ghost var a6 := Append(s, a5, HeadWrites(t.head));
      AddOptional(DEPREL, t.deprel);
      ghost var a7 := Append(s, a6, Optional(DEPREL, t.deprel));
      AddOptional(DEPS, t.deps);
      ghost var a8 := Append(s, a7, Optional(DEPS, t.deps));
    }

    static lemma Append(s: Index, a: seq<Write>, b: seq<Write>) returns (r: seq<Write>)
      ensures r == a + b && Fold(Applied, s, r, |r|) == Fold(Applied, Fold(Applied, s, a, |a|), b, |b|)
    {
      r := a + b;
      FoldAppend(Applied, s, a, b, |b|);
    }

    method AddToken(o: Options, t: Token)
      requires Valid()
      modifies this, forward
      ensures Valid() && forward == old(forward) && View() == TokenStep(o)(old(View()), t)
    {
      AnnotateToken(o, t);
      if t.spaceAfterNo {
        spacing := spacing + {position};
      }
      position := position + 1;
    }

    method AddTokens(o: Options, ts: seq<Token>)
      requires Valid()
      modifies this, forward
      ensures Valid() && forward == old(forward)
      ensures View() == Fold(TokenStep(o), old(View()), ts, |ts|)
    {
      ghost var step := TokenStep(o);
      for i := 0 to |ts|
        invariant Valid() && forward == old(forward)
        invariant View() == Fold(step, old(View()), ts, i)
      {
        AddToken(o, ts[i]);
      }
    }

    method AddMwt(start: nat, r: Range)
      requires Valid()
      modifies this, forward
      ensures Valid() && forward == old(forward)
      ensures View() == From(PlaceMwt, start)(old(View()), r)
    {
      mwts := mwts + [Mwt.Entry(start + (r.first - 1), start + r.last, r.form, r.noSpaceAfter)];
      assert View() == PlaceMwt(start, old(View()), r);
    }

    method AddMwts(start: nat, rs: seq<Range>)
      requires Valid()
      modifies this, forward
      ensures Valid() && forward == old(forward)
      ensures View() == Fold(From(PlaceMwt, start), old(View()), rs, |rs|)
    {
      ghost var place := From(PlaceMwt, start);
      for i := 0 to |rs|
        invariant Valid() && forward == old(forward)
        invariant View() == Fold(place, old(View()), rs, i)
      {
        AddMwt(start, rs[i]);
      }
    }

    method AddEmptyNodes(nodes: seq<Text>)
      requires Valid()
      modifies this, forward
      ensures Valid() && forward == old(forward)
      ensures View() == Fold(AddedNode, old(View()), nodes, |nodes|)
    {
      var sentence := |sentenceIds|;
      for i := 0 to |nodes|
        invariant Valid() && forward == old(forward)
        invariant View() == Fold(AddedNode, old(View()), nodes, i) && |sentenceIds| == sentence
      {
        emptyNodes := emptyNodes + [EmptyNode(sentence, nodes[i])];
      }
    }

    method EndSentence(nodes: seq<Text>, start: nat, id: Text)
      requires Valid()
      modifies this, forward
      ensures Valid() && forward == old(forward)
      ensures View() == CloseAs(nodes, id)(old(View()), start)
    {
      if position > start {
        AddEmptyNodes(nodes);
        sents := sents + [Span(start, position)];
        sentenceIds := sentenceIds + [id];
      }
    }

    // The loop body of add_document.
    method AddSentence(o: Options, x: Sentence, name: Text, rank: nat)
      requires Valid()
      modifies this, forward
      ensures Valid() && forward == old(forward)
      ensures View() == SentenceStep(o, name)(old(View()), (x, rank))
      ensures position == old(position) + |x.tokens|
    {
      ghost var before := View();
      var start := position;
      AddTokens(o, x.tokens);
      AddMwts(start, x.mwts);
      var id := if x.id.Some? then x.id.value else name + [COLON] + o.decimal(rank);
      EndSentence(x.emptyNodes, start, id);
      assert View() == AddedSentence(o, before, x, name, rank);
      SentenceSpans(o, before, x, name, rank);
    }

    // The next sentence, with its rank among those that have tokens.
    method AddRanked(o: Options, x: Sentence, name: Text, rank: nat) returns (next: nat)
      requires Valid()
      modifies this, forward
      ensures Valid() && forward == old(forward)
      ensures View() == SentenceStep(o, name)(old(View()), (x, rank))
      ensures next == rank + if x.tokens == [] then 0 else 1
    {
      var start := position;
      AddSentence(o, x, name, rank);
      next := if position > start then rank + 1 else rank;
    }

    method AddEach(o: Options, xs: seq<Sentence>, name: Text, ghost step: (Index, (Sentence, nat)) -> Index,
        ghost ranked: seq<(Sentence, nat)>)
      requires Valid() && |ranked| == |xs|
      requires forall i {:trigger RankAfter(xs, i)} :: 0 <= i < |xs| ==> ranked[i] == (xs[i], RankAfter(xs, i))
      requires forall s, x {:trigger SentenceStep(o, name)(s, x)} :: step(s, x) == SentenceStep(o, name)(s, x)
      modifies this, forward
      ensures Valid() && forward == old(forward) && View() == Fold(step, old(View()), ranked, |xs|)
    {
      var rank := 0;
      for i := 0 to |xs|
        invariant Valid() && forward == old(forward)
        invariant View() == Fold(step, old(View()), ranked, i) && rank == RankAfter(xs, i)
      {
        ghost var before := View();
        rank := AddRanked(o, xs[i], name, rank);
        FoldNext(step, old(View()), ranked, i, before);
      }
    }

    static lemma FoldNext(step: (Index, (Sentence, nat)) -> Index, s: Index, ranked: seq<(Sentence, nat)>, i: nat,
        t: Index)
      requires i < |ranked| && t == Fold(step, s, ranked, i)
      ensures step(t, ranked[i]) == Fold(step, s, ranked, i + 1)
    {
    }

    method AddSentences(o: Options, xs: seq<Sentence>, name: Text)
      requires Valid()
      modifies this, forward
      ensures Valid() && forward == old(forward)
      ensures View() == Fold(SentenceStep(o, name), old(View()), Ranked(xs), |xs|)
    {
      AddEach(o, xs, name, SentenceStep(o, name), Ranked(xs));
    }

    // add_document
    method AddDocument(o: Options, d: Document)
      requires Valid()
      modifies this, forward
      ensures Valid() && forward == old(forward)
      ensures View() == Added(o, old(View()), d)
    {
      var start := position;
      AddSentences(o, d.sentences, d.name);
      if position > start {
        docs := docs + [Span(start, position)];
        documentNames := documentNames + [d.name];
      }
    }

    // merge_from
    method MergeFrom(other: IndexSink)
      requires Valid() && other.Valid() && other != this && (forward != null ==> other.forward != forward)
      modifies this, forward
      ensures Valid() && forward == old(forward) && View() == Merged(old(View()), other.View())
    {
      ghost var before, theirs := View(), other.View();
      var offset, sentenceOffset := position, |sentenceIds|;
      MergeForward(other, offset);
      MergeNames(other);
      ghost var named := View();
      ForwardMerged(before, theirs, named);
      MergeRest(other, offset, sentenceOffset);
    }

    // Everything but the layers.
    method MergeRest(other: IndexSink, offset: nat, sentenceOffset: nat)
      requires Valid() && other.Valid() && other != this
      modifies this`inverted, this`lexicon, this`docs, this`sents, this`mwts, this`spacing, this`emptyNodes
      modifies this`documentNames, this`sentenceIds, this`position
      ensures Valid() && View() == old(View()).(
        inverted := MergeInverted(old(inverted), other.inverted, offset),
        lexicon := MergeLexicon(old(lexicon), other.lexicon),
        docs := old(docs) + Each(SpanShifter(offset), other.docs, |other.docs|),
        sents := old(sents) + Each(SpanShifter(offset), other.sents, |other.sents|),
        position := old(position) + other.position, documentNames := old(documentNames) + other.documentNames,
        sentenceIds := old(sentenceIds) + other.sentenceIds,
        mwts := old(mwts) + Each(MwtShifter(offset), other.mwts, |other.mwts|),
        spacing := old(spacing) + Shifted(other.spacing, offset),
        emptyNodes := old(emptyNodes) + Each(NodeShifter(sentenceOffset), other.emptyNodes, |other.emptyNodes|))
    {
      MergeTables(other, offset);
      MergeSpans(other, offset);
      MergeRows(other, offset, sentenceOffset);
      MergeNumbering(other);
    }

    method MergeNumbering(other: IndexSink)
      requires Valid() && other != this
      modifies this`documentNames, this`sentenceIds, this`position
      ensures Valid() && View() == old(View()).(position := old(position) + other.position,
        documentNames := old(documentNames) + other.documentNames,
        sentenceIds := old(sentenceIds) + other.sentenceIds)
    {
      documentNames := documentNames + other.documentNames;
      sentenceIds := sentenceIds + other.sentenceIds;
      position := position + other.position;
    }

    // The forward columns are merged where both sinks have them.
    method MergeForward(other: IndexSink, offset: nat)
      requires Valid() && other.Valid() && other != this && (forward != null ==> other.forward != forward)
      modifies forward
      ensures Valid() && View() == old(View()).(forward :=
        if forward != null && other.forward != null
          then Some(F.MergedStore(old(View()).forward.value, other.forward.View(), offset))
        else old(View()).forward)
      ensures other.Valid() && other.View() == old(other.View())
    {
      if forward != null && other.forward != null {
        ghost var more := MergedLayers(F.LayAt(offset), forward.View(), other.forward.View(), |other.forward.layers|);
        NumberedMore(layerIndices, forward.layers, more);
        forward.MergeFrom(other.forward, offset);
      }
    }

    // ensure_layer for every layer of the other sink
    method MergeNames(other: IndexSink)
      requires Valid() && other.Valid() && other != this && (forward != null ==> other.forward != forward)
      modifies this, forward
      ensures Valid() && forward == old(forward)
      ensures View() == EnsuredAll(old(View()), other.View().layerNames, |other.layerIndices|)
      ensures other.Valid() && other.View() == old(other.View())
    {
      ghost var names := other.View().layerNames;
      for k := 0 to |other.layerIndices|
        invariant Valid() && forward == old(forward) && View() == EnsuredAll(old(View()), names, k)
        invariant other.Valid() && other.View() == old(other.View())
      {
        EnsureLayer(other.layerIndices[k].0);
      }
    }

    method MergeTables(other: IndexSink, offset: nat)
      requires Valid() && other != this
      modifies this`inverted, this`lexicon
      ensures Valid() && View() == old(View()).(inverted := MergeInverted(old(inverted), other.inverted, offset),
        lexicon := MergeLexicon(old(lexicon), other.lexicon))
    {
      inverted := MergeInvertedInto(inverted, other.inverted, offset);
      lexicon := MergeLexiconInto(lexicon, other.lexicon);
    }

    method MergeSpans(other: IndexSink, offset: nat)
      requires Valid() && other != this
      modifies this`docs, this`sents
      ensures Valid() && View() == old(View()).(docs := old(docs) + Each(SpanShifter(offset), other.docs, |other.docs|),
        sents := old(sents) + Each(SpanShifter(offset), other.sents, |other.sents|))
    {
      docs := ExtendWith(docs, SpanShifter(offset), other.docs);
      sents := ExtendWith(sents, SpanShifter(offset), other.sents);
    }

    method MergeRows(other: IndexSink, offset: nat, sentenceOffset: nat)
      requires Valid() && other != this
      modifies this`mwts, this`spacing, this`emptyNodes
      ensures Valid() && View() == old(View()).(mwts := old(mwts) + Each(MwtShifter(offset), other.mwts, |other.mwts|),
        spacing := old(spacing) + Shifted(other.spacing, offset),
        emptyNodes := old(emptyNodes) + Each(NodeShifter(sentenceOffset), other.emptyNodes, |other.emptyNodes|))
    {
      mwts := ExtendWith(mwts, MwtShifter(offset), other.mwts);
      spacing := spacing + Shifted(other.spacing, offset);
      emptyNodes := ExtendWith(emptyNodes, NodeShifter(sentenceOffset), other.emptyNodes);
    }

    // take_forward
    method TakeForward() returns (taken: F.InMemoryForward?)
      requires Valid()
      modifies this`forward
      ensures taken == old(forward) && forward == null
      ensures Valid() && View() == old(View()).(forward := None)
    {
      taken := forward;
      forward := null;
    }
  }

  // ensure_layer for the first k names.
  function EnsuredAll(s: Index, names: seq<Layer>, k: nat): Index
    requires k <= |names|
  {
    if k == 0 then s else Ensured(EnsuredAll(s, names, k - 1), names[k - 1])
  }

  lemma {:induction false} EnsuredAllIs(s: Index, names: seq<Layer>, k: nat)
    requires k <= |names|
    ensures EnsuredAll(s, names, k) == s.(layerNames := MergeTerms(s.layerNames, names[..k]),
      forward := if s.forward.None? then None
        else Some(WithLayers(s.forward.value, NewNames(s.layerNames, names[..k]))))
  {
    var own := s.layerNames;
    if k == 0 {
      assert names[..0] == [] && NewNames(own, []) == [];
      if s.forward.Some? {
        assert s.forward.value.layers + [] == s.forward.value.layers &&
          s.forward.value.data + Blank([]).data == s.forward.value.data;
      }
    } else {
      EnsuredAllIs(s, names, k - 1);
      var l, before := names[k - 1], MergeTerms(own, names[..k - 1]);
      assert names[..k][..k - 1] == names[..k - 1];
      assert MergeTerms(own, names[..k]) == AddUnlessIn(before, l);
      if l !in before {
        var xs := NewNames(own, names[..k - 1]);
        assert NewNames(own, names[..k]) == xs + [l];
        if s.forward.Some? {
          MoreLayers(s.forward.value, xs, l);
        }
      }
    }
  }

  lemma MoreLayers(f: F.Store, xs: seq<Layer>, l: Layer)
    ensures F.WithLayer(WithLayers(f, xs), l) == WithLayers(f, xs + [l])
  {
    assert f.layers + xs + [l] == f.layers + (xs + [l]);
    assert Blank(xs + [l]).data == Blank(xs).data + [[]];
    assert f.data + Blank(xs).data + [[]] == f.data + (Blank(xs).data + [[]]);
  }

  lemma ForwardMerged(a: Index, b: Index, named: Index)
    requires named == EnsuredAll(a.(forward := if a.forward.Some? && b.forward.Some? then
      Some(F.MergedStore(a.forward.value, b.forward.value, a.position)) else a.forward), b.layerNames, |b.layerNames|)
    ensures named == a.(forward := MergedForward(a, b), layerNames := MergeTerms(a.layerNames, b.layerNames))
  {
    var s := a.(forward := if a.forward.Some? && b.forward.Some? then
      Some(F.MergedStore(a.forward.value, b.forward.value, a.position)) else a.forward);
    EnsuredAllIs(s, b.layerNames, |b.layerNames|);
    assert b.layerNames[..|b.layerNames|] == b.layerNames;
  }
}
